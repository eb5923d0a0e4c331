/** A printer and a parser that satisfy the laws asked of `json.dumps` and of the cell
    parser: the premises of the comparability theorem can hold together. */
module MetricsWitness {
  import opened Prelude
  import opened Metrics

  function Unary(n: nat): string { if n == 0 then "0" else "1" + Unary(n - 1) }

  function PrintInt(n: int): string { if n < 0 then "-" + Unary(-n) else "+" + Unary(n) }

  function PrintText(s: string): string { Unary(|s|) + s }

  ghost function First(keys: set<string>): (k: string)
    requires keys != {}
    ensures k in keys
  {
    var k :| k in keys; k
  }

  /** Prefix code of a value: a tag, then the parts one after the other. */
  ghost function Print(v: Json): (r: string)
    ensures r != ""
    ensures v.List? || v.Object? ==> r[|r| - 1] == ']'
    decreases v, 1, 0
  {
    match v
    case Null => "n"
    case Bool(b) => if b then "t" else "f"
    case Num(x) => "#" + PrintInt(Nearest(x * UNITS))
    case Text(s, None) => "q" + PrintText(s)
    case Text(s, Some(parsed)) => "Q" + (PrintText(s) + Print(parsed))
    case List(items) => "[" + PrintItems(v, 0)
    case Object(members) => "{" + PrintMembers(v, members.Keys)
  }

  ghost function PrintItems(v: Json, i: nat): (r: string)
    requires v.List? && i <= |v.items|
    ensures r != "" && r[|r| - 1] == ']'
    decreases v, 0, |v.items| - i
  {
    if i == |v.items| then "]" else "," + (Print(v.items[i]) + PrintItems(v, i + 1))
  }

  ghost function PrintMembers(v: Json, keys: set<string>): (r: string)
    requires v.Object? && keys <= v.members.Keys
    ensures r != "" && r[|r| - 1] == ']'
    decreases v, 0, |keys|
  {
    if keys == {} then "]"
    else var k := First(keys); "," + (PrintText(k) + (Print(v.members[k]) + PrintMembers(v, keys - {k})))
  }

  /** Printable through the parses of its texts. */
  predicate Deep(v: Json)
    decreases v
  {
    match v
    case Num(x) => Round(x) == x
    case Text(_, Some(parsed)) => Deep(parsed)
    case List(items) => forall i :: 0 <= i < |items| ==> Deep(items[i])
    case Object(members) => forall k :: k in members ==> Deep(members[k])
    case _ => true
  }

  // ------------------------------------------------------------------ a prefix code

  lemma Behind(a: string, b: string, x: string, y: string)
    requires a != "" && b != "" && a + x == b + y
    ensures a[0] == b[0] && a[1..] + x == b[1..] + y
    ensures |a| == |b| == 1 ==> x == y
  {
    assert (a + x)[0] == a[0] && (b + y)[0] == b[0];
    assert (a + x)[1..] == a[1..] + x && (b + y)[1..] == b[1..] + y;
    if |a| == |b| == 1 { assert a[1..] + x == x && b[1..] + y == y; }
  }

  lemma {:induction false} UnaryCode(m: nat, n: nat, x: string, y: string)
    requires Unary(m) + x == Unary(n) + y
    ensures m == n && x == y
  {
    Behind(Unary(m), Unary(n), x, y);
    if m == 0 || n == 0 {
      assert Unary(m)[1..] + x == x && Unary(n)[1..] + y == y;
    } else {
      assert Unary(m)[1..] == Unary(m - 1) && Unary(n)[1..] == Unary(n - 1);
      UnaryCode(m - 1, n - 1, x, y);
    }
  }

  lemma IntCode(m: int, n: int, x: string, y: string)
    requires PrintInt(m) + x == PrintInt(n) + y
    ensures m == n && x == y
  {
    Behind(PrintInt(m), PrintInt(n), x, y);
    UnaryCode(if m < 0 then -m else m, if n < 0 then -n else n, x, y);
  }

  lemma TextCode(s: string, t: string, x: string, y: string)
    requires PrintText(s) + x == PrintText(t) + y
    ensures s == t && x == y
  {
    assert Unary(|s|) + (s + x) == PrintText(s) + x && Unary(|t|) + (t + y) == PrintText(t) + y;
    UnaryCode(|s|, |t|, s + x, t + y);
    assert s == (s + x)[..|s|] && t == (t + y)[..|t|];
    assert x == (s + x)[|s|..] && y == (t + y)[|t|..];
  }

  lemma RoundedSame(x: real, y: real)
    requires Round(x) == x && Round(y) == y && Nearest(x * UNITS) == Nearest(y * UNITS)
    ensures x == y
  {
    hide Nearest;
  }

  lemma {:induction false} ValueCode(v: Json, w: Json, x: string, y: string)
    requires Deep(v) && Deep(w) && Print(v) + x == Print(w) + y
    ensures v == w && x == y
    decreases v, 1, 0
  {
    hide PrintItems, PrintMembers, PrintText, PrintInt, Round, Nearest;
    Behind(Print(v), Print(w), x, y);
    match v
    case Null =>
    case Bool(b) =>
    case Num(m) =>
      IntCode(Nearest(m * UNITS), Nearest(w.x * UNITS), x, y);
      RoundedSame(m, w.x);
    case Text(s, None) => TextCode(s, w.spelling, x, y);
    case Text(s, Some(parsed)) =>
      var a, b := Print(parsed), Print(w.parsed.value);
      assert PrintText(s) + (a + x) == PrintText(s) + a + x && PrintText(w.spelling) + (b + y) == PrintText(w.spelling) + b + y;
      TextCode(s, w.spelling, a + x, b + y);
      ValueCode(parsed, w.parsed.value, x, y);
    case List(items) =>
      ItemsCode(v, w, 0, x, y);
      assert items == w.items;
    case Object(members) =>
      MembersCode(v, w, members.Keys, w.members.Keys, x, y);
      assert members == w.members;
  }

  lemma {:induction false} ItemsCode(v: Json, w: Json, i: nat, x: string, y: string)
    requires v.List? && w.List? && Deep(v) && Deep(w) && i <= |v.items| && i <= |w.items|
    requires PrintItems(v, i) + x == PrintItems(w, i) + y
    ensures v.items[i..] == w.items[i..] && x == y
    decreases v, 0, |v.items| - i
  {
    hide Print;
    Behind(PrintItems(v, i), PrintItems(w, i), x, y);
    if i == |v.items| || i == |w.items| {
      assert PrintItems(v, i) == PrintItems(w, i) == "]";
    } else {
      var a, b, c, d := PrintItems(v, i + 1), PrintItems(w, i + 1), Print(v.items[i]), Print(w.items[i]);
      assert PrintItems(v, i)[1..] == c + a && PrintItems(w, i)[1..] == d + b;
      assert Deep(v.items[i]) && Deep(w.items[i]);
      hide PrintItems, Deep;
      Regroup(c, a, x);
      Regroup(d, b, y);
      ValueCode(v.items[i], w.items[i], a + x, b + y);
      ItemsCode(v, w, i + 1, x, y);
      assert v.items[i..] == [v.items[i]] + v.items[i + 1..] && w.items[i..] == [w.items[i]] + w.items[i + 1..];
    }
  }

  lemma Regroup(a: string, b: string, c: string)
    ensures a + b + c == a + (b + c)
  {
  }

  lemma {:induction false} MembersCode(v: Json, w: Json, keys: set<string>, names: set<string>, x: string, y: string)
    requires v.Object? && w.Object? && Deep(v) && Deep(w) && keys <= v.members.Keys && names <= w.members.Keys
    requires PrintMembers(v, keys) + x == PrintMembers(w, names) + y
    ensures keys == names && x == y && forall k :: k in keys ==> v.members[k] == w.members[k]
    decreases v, 0, |keys|
  {
    hide Print, PrintText;
    Behind(PrintMembers(v, keys), PrintMembers(w, names), x, y);
    if keys == {} || names == {} {
      assert PrintMembers(v, keys) == PrintMembers(w, names) == "]";
    } else {
      var k, n := First(keys), First(names);
      var a, b := PrintMembers(v, keys - {k}), PrintMembers(w, names - {n});
      var c, d := Print(v.members[k]), Print(w.members[n]);
      assert PrintMembers(v, keys)[1..] == PrintText(k) + (c + a) && PrintMembers(w, names)[1..] == PrintText(n) + (d + b);
      assert Deep(v.members[k]) && Deep(w.members[n]);
      hide PrintMembers, Deep, First;
      Regroup(PrintText(k), c + a, x);
      Regroup(PrintText(n), d + b, y);
      Regroup(c, a, x);
      Regroup(d, b, y);
      TextCode(k, n, c + (a + x), d + (b + y));
      ValueCode(v.members[k], w.members[n], a + x, b + y);
      MembersCode(v, w, keys - {k}, names - {k}, x, y);
      assert keys == keys - {k} + {k} && names == names - {k} + {k};
    }
  }

  // --------------------------------------------------------------------- the parser

  function Stripped(s: string): string {
    if s != "" && s[|s| - 1] == ' ' then Stripped(s[..|s| - 1]) else s
  }

  ghost predicate Spells(v: Json, s: string) { (v.List? || v.Object?) && Deep(v) && Print(v) == s }

  ghost function Spelt(s: string): Option<Json> {
    if exists v :: Spells(v, s) then var v :| Spells(v, s); Some(v) else None
  }

  /** The array or object whose print the text is, but for blanks at its end. */
  ghost function Parse(s: string): Option<Json> { Spelt(Stripped(s)) }

  lemma {:induction false} CoherentIsDeep(v: Json)
    requires Coherent(v, s => Parse(s)) && Printable(v)
    ensures Deep(v)
    decreases v
  {
    match v
    case List(items) =>
      forall i | 0 <= i < |items| ensures Deep(items[i]) { CoherentIsDeep(items[i]); }
    case Object(members) =>
      forall k | k in members ensures Deep(members[k]) { CoherentIsDeep(members[k]); }
    case _ =>
  }

  lemma PrintReadsBack(v: Json)
    requires (v.List? || v.Object?) && Deep(v)
    ensures Parse(Print(v)) == Some(v)
  {
    assert Stripped(Print(v)) == Print(v);
    assert Spells(v, Print(v));
    var w := Parse(Print(v)).value;
    assert Spells(w, Print(v));
    assert Print(v) + "" == Print(w) + "";
    ValueCode(v, w, "", "");
  }

  /** The laws have a model, and in it a cell that does not compare exactly: a text
      with a text inside that itself parses. */
  lemma LawsCanHold() returns (parse: string -> Option<Json>, dump: Json -> string, a: Json)
    ensures ReadsBack(parse, dump)
    ensures a.Text? && Coherent(a, parse) && !Comparable(a)
  {
    parse, dump := s => Parse(s), v => Print(v);
    forall v: Json | (v.List? || v.Object?) && Coherent(v, parse) && Printable(v) ensures parse(dump(v)) == Some(v) {
      CoherentIsDeep(v);
      PrintReadsBack(v);
    }
    forall s: string ensures parse(s + " ") == parse(s) {
      assert (s + " ")[..|s|] == s;
      assert Stripped(s + " ") == Stripped(s);
    }
    var none := List([]);
    PrintReadsBack(none);
    var text := Text(Print(none), Some(none));
    PrintReadsBack(List([text]));
    a := Text(Print(List([text])), Some(List([text])));
    assert Coherent(text, parse) && Coherent(List([text]), parse);
    assert !PlainInside(text) && !PlainInside(List([text]));
  }
}
