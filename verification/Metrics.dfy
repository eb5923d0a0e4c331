/** Metric rows: the canonical form that is hashed, rounded to twelve decimals, and
    the tolerant comparison of an actual with an expected row. */
module Metrics {
  import opened Prelude

  /** A cell or a JSON value. A text keeps its spelling and what it parses to if it
      looks like a JSON array or object. */
  datatype Json =
    | Null | Bool(b: bool) | Num(x: real) | Text(spelling: string, parsed: Option<Json>)
    | List(items: seq<Json>) | Object(members: map<string, Json>)

  const UNITS := 1000000000000.0
  const TOLERANCE := 0.000000000001

  // ------------------------------------------------------------------- rounding

  function Floor(x: real): int { x.Floor }

  /** Rounding to the nearest integer, ties to even. */
  function Nearest(x: real): int {
    var n := Floor(x);
    var rest := x - n as real;
    if rest < 0.5 || (rest == 0.5 && n % 2 == 0) then n else n + 1
  }

  /** Rounding to twelve decimals. */
  function Round(x: real): real { Nearest(x * UNITS) as real / UNITS }

  lemma NearestIsNear(x: real)
    ensures -0.5 <= x - Nearest(x) as real <= 0.5
  {
  }

  lemma NearestOf(x: real, n: int)
    requires -0.5 < x - n as real < 0.5
    ensures Nearest(x) == n
  {
    if x < n as real { assert Floor(x) == n - 1; } else { assert Floor(x) == n; }
  }

  /** Rounding exactly: within a half, or at a half from an even number. */
  lemma NearestExactly(x: real, n: int)
    ensures Nearest(x) == n <==> -0.5 < x - n as real < 0.5 || ((x - n as real == 0.5 || x - n as real == -0.5) && n % 2 == 0)
  {
    var m := Floor(x);
    assert m as real <= x < m as real + 1.0;
    if -0.5 < x - n as real < 0.5 { NearestOf(x, n); }
  }

  /** Rounding keeps twelve decimals. */
  lemma RoundExactly(x: real)
    ensures Round(x) * 1000000000000.0 == Nearest(x * 1000000000000.0) as real
  {
  }

  lemma RoundTwice(x: real)
    ensures Round(Round(x)) == Round(x)
  {
    NearestOf(Round(x) * UNITS, Nearest(x * UNITS));
  }

  /** Numbers that round alike are within the absolute tolerance. */
  lemma SameRoundIsClose(x: real, y: real)
    requires Round(x) == Round(y)
    ensures IsClose(x, y)
  {
    NearestIsNear(x * UNITS);
    NearestIsNear(y * UNITS);
    assert Nearest(x * UNITS) as real == Round(x) * UNITS;
    assert Nearest(y * UNITS) as real == Round(y) * UNITS;
    assert -1.0 <= (x - y) * UNITS <= 1.0;
  }

  /** Every number has another one that rounds alike. */
  lemma AnotherAlike(x: real) returns (y: real)
    ensures y != x && Round(y) == Round(x)
  {
    var n := Nearest(x * UNITS);
    y := if x == Round(x) then Round(x) + 0.0000000000001 else Round(x);
    NearestOf(y * UNITS, n);
  }

  // ------------------------------------------------------------------- canonical

  function Canonical(v: Json, dump: Json -> string): Json
    decreases v
  {
    match v
    case Num(x) => Num(Round(x))
    case Text(_, Some(parsed)) => var inner := Canonical(parsed, dump); Text(dump(inner), Some(inner))
    case List(items) => List(seq(|items|, i requires 0 <= i < |items| => Canonical(items[i], dump)))
    case Object(members) => Object(map k | k in members :: Canonical(members[k], dump))
    case _ => v
  }

  /** Canonicalization is idempotent, through nested JSON texts too. */
  lemma {:induction false} CanonicalTwice(v: Json, dump: Json -> string)
    ensures Canonical(Canonical(v, dump), dump) == Canonical(v, dump)
    decreases v
  {
    match v
    case Num(x) => RoundTwice(x);
    case Text(_, Some(parsed)) => CanonicalTwice(parsed, dump);
    case List(items) =>
      forall i | 0 <= i < |items| ensures Canonical(Canonical(items[i], dump), dump) == Canonical(items[i], dump) {
        CanonicalTwice(items[i], dump);
      }
    case Object(members) =>
      forall k | k in members ensures Canonical(Canonical(members[k], dump), dump) == Canonical(members[k], dump) {
        CanonicalTwice(members[k], dump);
      }
    case _ =>
  }

  // ------------------------------------------------------------------ comparison

  function MaxAbs(x: real, y: real): real { if Abs(x) < Abs(y) then Abs(y) else Abs(x) }

  /** `math.isclose` with both tolerances. */
  predicate IsClose(x: real, y: real) { Abs(x - y) <= TOLERANCE || Abs(x - y) <= TOLERANCE * MaxAbs(x, y) }

  /** Two numbers are close iff they differ by no more than a millionth of a millionth,
      or than that part of the size of one of them. */
  lemma CloseExactly(x: real, y: real)
    ensures var d := if x < y then y - x else x - y;
      IsClose(x, y) <==>
        || d <= 0.000000000001
        || d <= 0.000000000001 * x || d <= 0.000000000001 * -x
        || d <= 0.000000000001 * y || d <= 0.000000000001 * -y
  {
  }

  /** Python equality: a boolean equals the number 0 or 1, a text is its spelling. */
  predicate PyEqual(a: Json, b: Json)
    decreases a
  {
    match (a, b)
    case (Bool(p), Num(y)) => y == (if p then 1.0 else 0.0)
    case (Num(x), Bool(q)) => x == (if q then 1.0 else 0.0)
    case (Text(s, _), Text(t, _)) => s == t
    case (List(xs), List(ys)) => |xs| == |ys| && forall i :: 0 <= i < |xs| && i < |ys| ==> PyEqual(xs[i], ys[i])
    case (Object(m), Object(n)) => m.Keys == n.Keys && forall k :: k in m && k in n ==> PyEqual(m[k], n[k])
    case _ => a == b
  }

  /** Inside parsed JSON: numbers with tolerance, texts by spelling. */
  predicate JsonEquivalent(a: Json, b: Json)
    decreases a
  {
    match (a, b)
    case (Num(x), Num(y)) => IsClose(x, y)
    case (Object(m), Object(n)) => m.Keys == n.Keys && forall k :: k in m && k in n ==> JsonEquivalent(m[k], n[k])
    case (List(xs), List(ys)) => |xs| == |ys| && forall i :: 0 <= i < |xs| && i < |ys| ==> JsonEquivalent(xs[i], ys[i])
    case _ => PyEqual(a, b)
  }

  /** Two cells of a metric row. */
  predicate Equivalent(a: Json, b: Json) {
    match (a, b)
    case (Num(x), Num(y)) => IsClose(x, y)
    case (Text(_, Some(p)), Text(_, Some(q))) => JsonEquivalent(p, q)
    case _ => PyEqual(a, b)
  }

  // ------------------------------------------------------ the comparisons, path by path

  datatype PathStep = Index(i: nat) | Member(k: string)

  /** What lies at the end of a path of indices and member names. */
  function Reach(v: Json, path: seq<PathStep>): Option<Json> {
    if path == [] then Some(v)
    else
      match (v, path[0])
      case (List(items), Index(i)) => if i < |items| then Reach(items[i], path[1..]) else None
      case (Object(members), Member(k)) => if k in members then Reach(members[k], path[1..]) else None
      case _ => None
  }

  /** Scalars that compare equal: of one kind and value, numbers perhaps only close, or a
      truth value and the number 1 or 0. */
  predicate ScalarsAgree(a: Json, b: Json, tolerant: bool) {
    || (a.Null? && b.Null?)
    || (a.Bool? && b.Bool? && a.b == b.b)
    || (a.Text? && b.Text? && a.spelling == b.spelling)
    || (a.Num? && b.Num? && (a.x == b.x || (tolerant && IsClose(a.x, b.x))))
    || (a.Bool? && b.Num? && ((a.b && b.x == 1.0) || (!a.b && b.x == 0.0)))
    || (a.Num? && b.Bool? && ((b.b && a.x == 1.0) || (!b.b && a.x == 0.0)))
  }

  /** Two ends of one path: both missing, lists of one length, objects of the same
      members, or agreeing scalars. */
  ghost predicate EndsAgree(a: Option<Json>, b: Option<Json>, tolerant: bool) {
    || (a.None? && b.None?)
    || (a.Some? && b.Some?
        && (|| (a.value.List? && b.value.List? && |a.value.items| == |b.value.items|)
            || (a.value.Object? && b.value.Object? && forall k :: k in a.value.members <==> k in b.value.members)
            || ScalarsAgree(a.value, b.value, tolerant)))
  }

  ghost predicate PathsAgree(a: Json, b: Json, tolerant: bool) {
    forall path :: EndsAgree(Reach(a, path), Reach(b, path), tolerant)
  }

  /** Values agree along all paths iff they do at the top and their parts do. */
  lemma AgreeAtTop(a: Json, b: Json, tolerant: bool)
    requires PathsAgree(a, b, tolerant)
    ensures EndsAgree(Some(a), Some(b), tolerant)
  {
    assert EndsAgree(Reach(a, []), Reach(b, []), tolerant);
  }

  lemma ItemsAgree(a: Json, b: Json, i: nat, tolerant: bool)
    requires PathsAgree(a, b, tolerant) && a.List? && b.List? && i < |a.items| && i < |b.items|
    ensures PathsAgree(a.items[i], b.items[i], tolerant)
  {
    forall path: seq<PathStep> ensures EndsAgree(Reach(a.items[i], path), Reach(b.items[i], path), tolerant) {
      var longer := [Index(i)] + path;
      assert longer[0] == Index(i) && longer[1..] == path;
      assert EndsAgree(Reach(a, longer), Reach(b, longer), tolerant);
    }
  }

  lemma MembersAgree(a: Json, b: Json, k: string, tolerant: bool)
    requires PathsAgree(a, b, tolerant) && a.Object? && b.Object? && k in a.members && k in b.members
    ensures PathsAgree(a.members[k], b.members[k], tolerant)
  {
    forall path: seq<PathStep> ensures EndsAgree(Reach(a.members[k], path), Reach(b.members[k], path), tolerant) {
      var longer := [Member(k)] + path;
      assert longer[0] == Member(k) && longer[1..] == path;
      assert EndsAgree(Reach(a, longer), Reach(b, longer), tolerant);
    }
  }

  lemma PartsAgree(a: Json, b: Json, tolerant: bool)
    requires EndsAgree(Some(a), Some(b), tolerant)
    requires a.List? && b.List? ==> forall i :: 0 <= i < |a.items| && i < |b.items| ==> PathsAgree(a.items[i], b.items[i], tolerant)
    requires a.Object? && b.Object? ==> forall k :: k in a.members && k in b.members ==> PathsAgree(a.members[k], b.members[k], tolerant)
    ensures PathsAgree(a, b, tolerant)
  {
    forall path: seq<PathStep> ensures EndsAgree(Reach(a, path), Reach(b, path), tolerant) {
      if path != [] {
        match (a, b)
        case (List(xs), List(ys)) =>
          if path[0].Index? && path[0].i < |xs| {
            assert PathsAgree(xs[path[0].i], ys[path[0].i], tolerant);
            assert EndsAgree(Reach(xs[path[0].i], path[1..]), Reach(ys[path[0].i], path[1..]), tolerant);
          }
        case (Object(m), Object(n)) =>
          if path[0].Member? && path[0].k in m {
            assert PathsAgree(m[path[0].k], n[path[0].k], tolerant);
            assert EndsAgree(Reach(m[path[0].k], path[1..]), Reach(n[path[0].k], path[1..]), tolerant);
          }
        case _ =>
      }
    }
  }

  /** Python equality is equality of everything at the end of every path. */
  lemma {:induction false} PyEqualPathwise(a: Json, b: Json)
    ensures PyEqual(a, b) <==> PathsAgree(a, b, false)
    decreases a
  {
    hide PathsAgree;
    if a.List? && b.List? {
      forall i | 0 <= i < |a.items| && i < |b.items| ensures PyEqual(a.items[i], b.items[i]) <==> PathsAgree(a.items[i], b.items[i], false) {
        PyEqualPathwise(a.items[i], b.items[i]);
      }
    }
    if a.Object? && b.Object? {
      forall k | k in a.members && k in b.members ensures PyEqual(a.members[k], b.members[k]) <==> PathsAgree(a.members[k], b.members[k], false) {
        PyEqualPathwise(a.members[k], b.members[k]);
      }
    }
    if PyEqual(a, b) { PartsAgree(a, b, false); }
    if PathsAgree(a, b, false) { Unfolded(a, b, false); }
  }

  lemma Unfolded(a: Json, b: Json, tolerant: bool)
    requires PathsAgree(a, b, tolerant)
    ensures EndsAgree(Some(a), Some(b), tolerant)
    ensures a.List? && b.List? ==> forall i :: 0 <= i < |a.items| && i < |b.items| ==> PathsAgree(a.items[i], b.items[i], tolerant)
    ensures a.Object? && b.Object? ==> forall k :: k in a.members && k in b.members ==> PathsAgree(a.members[k], b.members[k], tolerant)
  {
    hide PathsAgree, EndsAgree;
    AgreeAtTop(a, b, tolerant);
    if a.List? && b.List? {
      forall i | 0 <= i < |a.items| && i < |b.items| ensures PathsAgree(a.items[i], b.items[i], tolerant) { ItemsAgree(a, b, i, tolerant); }
    }
    if a.Object? && b.Object? {
      forall k | k in a.members && k in b.members ensures PathsAgree(a.members[k], b.members[k], tolerant) { MembersAgree(a, b, k, tolerant); }
    }
  }

  /** Inside parsed JSON the comparison is the same, with numbers only close. */
  lemma {:induction false} JsonEquivalentPathwise(a: Json, b: Json)
    ensures JsonEquivalent(a, b) <==> PathsAgree(a, b, true)
    decreases a
  {
    hide PathsAgree, IsClose;
    if a.List? && b.List? {
      forall i | 0 <= i < |a.items| && i < |b.items| ensures JsonEquivalent(a.items[i], b.items[i]) <==> PathsAgree(a.items[i], b.items[i], true) {
        JsonEquivalentPathwise(a.items[i], b.items[i]);
      }
    }
    if a.Object? && b.Object? {
      forall k | k in a.members && k in b.members ensures JsonEquivalent(a.members[k], b.members[k]) <==> PathsAgree(a.members[k], b.members[k], true) {
        JsonEquivalentPathwise(a.members[k], b.members[k]);
      }
    }
    if a.Num? && b.Num? && a.x == b.x { SelfClose(a.x); }
    if JsonEquivalent(a, b) { PartsAgree(a, b, true); }
    if PathsAgree(a, b, true) { Unfolded(a, b, true); }
  }

  lemma SelfClose(x: real)
    ensures IsClose(x, x)
  {
  }

  /** Two cells of a row agree iff they are close numbers, texts whose parsed values agree
      along all paths with tolerance, or otherwise agree along all paths exactly. */
  lemma EquivalentExactly(a: Json, b: Json)
    ensures Equivalent(a, b)
      <==> (if a.Num? && b.Num? then IsClose(a.x, b.x)
            else if a.Text? && b.Text? && a.parsed.Some? && b.parsed.Some? then PathsAgree(a.parsed.value, b.parsed.value, true)
            else PathsAgree(a, b, false))
  {
    PyEqualPathwise(a, b);
    if a.Text? && b.Text? && a.parsed.Some? && b.parsed.Some? { JsonEquivalentPathwise(a.parsed.value, b.parsed.value); }
    hide PathsAgree, PyEqual, JsonEquivalent;
  }

  // ------------------------------------------- where equal canonical forms compare equal

  /** No text inside looks like JSON. */
  predicate PlainInside(v: Json)
    decreases v
  {
    match v
    case Text(_, parsed) => parsed.None?
    case List(items) => forall i :: 0 <= i < |items| ==> PlainInside(items[i])
    case Object(members) => forall k :: k in members ==> PlainInside(members[k])
    case _ => true
  }

  /** No number and no JSON-looking text inside. */
  predicate ExactInside(v: Json)
    decreases v
  {
    match v
    case Num(_) => false
    case Text(_, parsed) => parsed.None?
    case List(items) => forall i :: 0 <= i < |items| ==> ExactInside(items[i])
    case Object(members) => forall k :: k in members ==> ExactInside(members[k])
    case _ => true
  }

  /** The cells for which hashing and comparing agree: scalars, JSON texts with no
      JSON-looking text inside, and arrays or objects without numbers. */
  predicate Comparable(v: Json) {
    match v
    case Text(_, Some(parsed)) => PlainInside(parsed)
    case List(_) => ExactInside(v)
    case Object(_) => ExactInside(v)
    case _ => true
  }

  lemma {:induction false} EqualsItself(v: Json)
    ensures PyEqual(v, v)
    decreases v
  {
    match v
    case List(items) => forall i | 0 <= i < |items| ensures PyEqual(items[i], items[i]) { EqualsItself(items[i]); }
    case Object(members) => forall k | k in members ensures PyEqual(members[k], members[k]) { EqualsItself(members[k]); }
    case _ =>
  }

  /** The canonical form keeps the shape: only a JSON-looking text becomes one. */
  lemma {:induction false} PlainCanonical(a: Json, b: Json, dump: Json -> string)
    requires PlainInside(a) && Canonical(a, dump) == Canonical(b, dump)
    ensures JsonEquivalent(a, b)
    decreases a
  {
    match a
    case Num(x) => SameRoundIsClose(x, b.x);
    case List(items) =>
      assert |Canonical(a, dump).items| == |Canonical(b, dump).items|;
      forall i | 0 <= i < |items| ensures JsonEquivalent(items[i], b.items[i]) {
        assert Canonical(a, dump).items[i] == Canonical(b, dump).items[i];
        PlainCanonical(items[i], b.items[i], dump);
      }
    case Object(members) =>
      assert Canonical(a, dump).members.Keys == members.Keys && Canonical(b, dump).members.Keys == b.members.Keys;
      forall k | k in members ensures JsonEquivalent(members[k], b.members[k]) {
        assert Canonical(a, dump).members[k] == Canonical(b, dump).members[k];
        PlainCanonical(members[k], b.members[k], dump);
      }
    case _ => EqualsItself(a);
  }

  lemma {:induction false} ExactCanonical(a: Json, b: Json, dump: Json -> string)
    requires ExactInside(a) && Canonical(a, dump) == Canonical(b, dump)
    ensures PyEqual(a, b)
    decreases a
  {
    match a
    case List(items) =>
      assert |Canonical(a, dump).items| == |Canonical(b, dump).items|;
      forall i | 0 <= i < |items| ensures PyEqual(items[i], b.items[i]) {
        assert Canonical(a, dump).items[i] == Canonical(b, dump).items[i];
        ExactCanonical(items[i], b.items[i], dump);
      }
    case Object(members) =>
      assert Canonical(a, dump).members.Keys == members.Keys && Canonical(b, dump).members.Keys == b.members.Keys;
      forall k | k in members ensures PyEqual(members[k], b.members[k]) {
        assert Canonical(a, dump).members[k] == Canonical(b, dump).members[k];
        ExactCanonical(members[k], b.members[k], dump);
      }
    case _ => EqualsItself(a);
  }

  /** A comparable cell equals every cell with its canonical form. */
  lemma ComparableAgrees(a: Json, b: Json, dump: Json -> string)
    requires Comparable(a) && Canonical(a, dump) == Canonical(b, dump)
    ensures Equivalent(a, b)
  {
    match a
    case Num(x) => SameRoundIsClose(x, b.x);
    case Text(_, Some(parsed)) => PlainCanonical(parsed, b.parsed.value, dump);
    case Text(_, None) => EqualsItself(a);
    case _ => if a.List? || a.Object? { ExactCanonical(a, b, dump); } else { EqualsItself(a); }
  }

  // -------------------------------------------------- cells the parser can produce

  /** Every text carries what the parser makes of its spelling, an array or object. */
  predicate Coherent(v: Json, parse: string -> Option<Json>)
    decreases v
  {
    match v
    case Text(s, parsed) => parsed == parse(s) && (parsed.Some? ==> (parsed.value.List? || parsed.value.Object?) && Coherent(parsed.value, parse))
    case List(items) => forall i :: 0 <= i < |items| ==> Coherent(items[i], parse)
    case Object(members) => forall k :: k in members ==> Coherent(members[k], parse)
    case _ => true
  }

  /** Every number is one the rounding leaves alone: it has a finite decimal form. */
  predicate Printable(v: Json)
    decreases v
  {
    match v
    case Num(x) => Round(x) == x
    case List(items) => forall i :: 0 <= i < |items| ==> Printable(items[i])
    case Object(members) => forall k :: k in members ==> Printable(members[k])
    case _ => true
  }

  /** What is asked of `json.dumps` and `parse_json_scalar`: a printed array or object
      parses back, and a blank at the end of a text is stripped. */
  ghost predicate ReadsBack(parse: string -> Option<Json>, dump: Json -> string) {
    && (forall v: Json :: (v.List? || v.Object?) && Coherent(v, parse) && Printable(v) ==> parse(dump(v)) == Some(v))
    && (forall s: string :: parse(s + " ") == parse(s))
  }

  /** Canonicalization turns cells into cells: the texts it prints carry their parse. */
  lemma {:induction false} CanonicalCoheres(v: Json, parse: string -> Option<Json>, dump: Json -> string)
    requires ReadsBack(parse, dump) && Coherent(v, parse)
    ensures Coherent(Canonical(v, dump), parse) && Printable(Canonical(v, dump))
    decreases v
  {
    match v
    case Num(x) => RoundTwice(x);
    case Text(_, Some(parsed)) => CanonicalCoheres(parsed, parse, dump);
    case List(items) =>
      var after := Canonical(v, dump).items;
      forall i | 0 <= i < |items| ensures Coherent(after[i], parse) && Printable(after[i]) {
        CanonicalCoheres(items[i], parse, dump);
      }
    case Object(members) =>
      var after := Canonical(v, dump).members;
      forall k | k in members ensures Coherent(after[k], parse) && Printable(after[k]) {
        CanonicalCoheres(members[k], parse, dump);
      }
    case _ =>
  }

  /** The value with its numbers rounded and its texts untouched. */
  function Rounded(v: Json): Json
    decreases v
  {
    match v
    case Num(x) => Num(Round(x))
    case List(items) => List(seq(|items|, i requires 0 <= i < |items| => Rounded(items[i])))
    case Object(members) => Object(map k | k in members :: Rounded(members[k]))
    case _ => v
  }

  lemma {:induction false} RoundedIsAlike(v: Json, parse: string -> Option<Json>, dump: Json -> string)
    requires Coherent(v, parse)
    ensures Canonical(Rounded(v), dump) == Canonical(v, dump) && Coherent(Rounded(v), parse) && Printable(Rounded(v))
    decreases v
  {
    match v
    case Num(x) => RoundTwice(x);
    case List(items) =>
      var after := Rounded(v).items;
      forall i | 0 <= i < |items|
        ensures Canonical(after[i], dump) == Canonical(items[i], dump) && Coherent(after[i], parse) && Printable(after[i])
      {
        RoundedIsAlike(items[i], parse, dump);
      }
      assert Canonical(Rounded(v), dump).items == Canonical(v, dump).items;
    case Object(members) =>
      var after := Rounded(v).members;
      forall k | k in members
        ensures Canonical(after[k], dump) == Canonical(members[k], dump) && Coherent(after[k], parse) && Printable(after[k])
      {
        RoundedIsAlike(members[k], parse, dump);
      }
      assert Canonical(Rounded(v), dump).members == Canonical(v, dump).members;
    case _ =>
  }

  // ------------------------------------------------------ twins that compare unequal

  /** Changing one element to another one with its canonical form. */
  lemma ListTwin(a: Json, like: seq<Json>, i: nat, c: Json, dump: Json -> string)
    requires a.List? && i < |like| == |a.items| && Canonical(List(like), dump) == Canonical(a, dump)
    requires Canonical(c, dump) == Canonical(a.items[i], dump)
    ensures Canonical(List(like[i := c]), dump) == Canonical(a, dump)
    ensures !PyEqual(a.items[i], c) ==> !PyEqual(a, List(like[i := c]))
    ensures !JsonEquivalent(a.items[i], c) ==> !JsonEquivalent(a, List(like[i := c]))
  {
    var b := List(like[i := c]);
    assert |Canonical(b, dump).items| == |Canonical(a, dump).items|;
    forall j | 0 <= j < |like| ensures Canonical(b, dump).items[j] == Canonical(a, dump).items[j] {
      assert Canonical(List(like), dump).items[j] == Canonical(a, dump).items[j];
    }
    assert b.items[i] == c;
  }

  lemma ObjectTwin(a: Json, like: map<string, Json>, k: string, c: Json, dump: Json -> string)
    requires a.Object? && k in like && like.Keys == a.members.Keys && Canonical(Object(like), dump) == Canonical(a, dump)
    requires Canonical(c, dump) == Canonical(a.members[k], dump)
    ensures Canonical(Object(like[k := c]), dump) == Canonical(a, dump)
    ensures !PyEqual(a.members[k], c) ==> !PyEqual(a, Object(like[k := c]))
    ensures !JsonEquivalent(a.members[k], c) ==> !JsonEquivalent(a, Object(like[k := c]))
  {
    var b := Object(like[k := c]);
    assert Canonical(b, dump).members.Keys == Canonical(a, dump).members.Keys;
    forall j | j in like ensures Canonical(b, dump).members[j] == Canonical(a, dump).members[j] {
      assert Canonical(Object(like), dump).members[j] == Canonical(a, dump).members[j];
    }
    assert b.members[k] == c;
  }

  /** A JSON text with a blank more at its end. */
  lemma BlankMore(s: string, parsed: Option<Json>, parse: string -> Option<Json>, dump: Json -> string) returns (b: Json)
    requires ReadsBack(parse, dump) && Coherent(Text(s, parsed), parse) && parsed.Some?
    ensures b == Text(s + " ", parsed) && Canonical(b, dump) == Canonical(Text(s, parsed), dump) && Coherent(b, parse) && Printable(b)
    ensures !JsonEquivalent(Text(s, parsed), b) && !PyEqual(Text(s, parsed), b)
  {
    b := Text(s + " ", parsed);
    assert |s + " "| != |s|;
  }

  lemma NumberTwin(x: real, dump: Json -> string) returns (b: Json)
    ensures Canonical(b, dump) == Canonical(Num(x), dump) && !PyEqual(Num(x), b) && b.Num?
  {
    var y := AnotherAlike(x);
    b := Num(y);
  }

  /** A value with a JSON-looking text inside has a printable twin with the same
      canonical form that the tolerant comparison refuses: the text with a blank more. */
  lemma {:induction false} Respelled(a: Json, parse: string -> Option<Json>, dump: Json -> string) returns (b: Json)
    requires ReadsBack(parse, dump) && Coherent(a, parse) && !PlainInside(a)
    ensures Canonical(b, dump) == Canonical(a, dump) && !JsonEquivalent(a, b) && !PyEqual(a, b)
    ensures Coherent(b, parse) && Printable(b) && (a.List? ==> b.List?) && (a.Object? ==> b.Object?)
    decreases a
  {
    hide Canonical, PyEqual, JsonEquivalent;
    match a
    case Text(s, parsed) => b := BlankMore(s, parsed, parse, dump);
    case List(items) =>
      RoundedIsAlike(a, parse, dump);
      var i :| 0 <= i < |items| && !PlainInside(items[i]);
      var c := Respelled(items[i], parse, dump);
      b := List(Rounded(a).items[i := c]);
      ListTwin(a, Rounded(a).items, i, c, dump);
    case Object(members) =>
      RoundedIsAlike(a, parse, dump);
      var k :| k in members && !PlainInside(members[k]);
      var c := Respelled(members[k], parse, dump);
      b := Object(Rounded(a).members[k := c]);
      ObjectTwin(a, Rounded(a).members, k, c, dump);
  }

  /** An array or object cell with a number has a twin too: the number changed below
      the rounding, which Python equality sees. */
  lemma {:induction false} Perturbed(a: Json, parse: string -> Option<Json>, dump: Json -> string) returns (b: Json)
    requires ReadsBack(parse, dump) && Coherent(a, parse) && !ExactInside(a)
    ensures Canonical(b, dump) == Canonical(a, dump) && !PyEqual(a, b) && Coherent(b, parse)
    ensures (a.List? ==> b.List?) && (a.Object? ==> b.Object?)
    decreases a
  {
    hide Canonical, PyEqual, JsonEquivalent;
    match a
    case Num(x) => b := NumberTwin(x, dump);
    case Text(s, parsed) => b := BlankMore(s, parsed, parse, dump);
    case List(items) =>
      var i :| 0 <= i < |items| && !ExactInside(items[i]);
      var c := Perturbed(items[i], parse, dump);
      b := List(items[i := c]);
      ListTwin(a, items, i, c, dump);
    case Object(members) =>
      var k :| k in members && !ExactInside(members[k]);
      var c := Perturbed(members[k], parse, dump);
      b := Object(members[k := c]);
      ObjectTwin(a, members, k, c, dump);
  }

  /** Every other cell has a twin that is a cell too: same canonical form, unequal. The
      twin of a JSON text is the changed value printed. */
  lemma IncomparableTwin(a: Json, parse: string -> Option<Json>, dump: Json -> string) returns (b: Json)
    requires ReadsBack(parse, dump) && Coherent(a, parse) && !Comparable(a)
    ensures Coherent(b, parse) && Canonical(b, dump) == Canonical(a, dump) && !Equivalent(a, b)
  {
    match a
    case Text(s, Some(parsed)) =>
      var c := Respelled(parsed, parse, dump);
      b := Text(dump(c), Some(c));
    case _ => b := Perturbed(a, parse, dump);
  }

  /** Equal canonical forms compare equal for exactly the comparable cells. */
  lemma ComparableExactly(a: Json, parse: string -> Option<Json>, dump: Json -> string)
    requires ReadsBack(parse, dump) && Coherent(a, parse)
    ensures Comparable(a) <==> forall b :: Coherent(b, parse) && Canonical(b, dump) == Canonical(a, dump) ==> Equivalent(a, b)
  {
    if Comparable(a) {
      forall b | Coherent(b, parse) && Canonical(b, dump) == Canonical(a, dump) ensures Equivalent(a, b) {
        ComparableAgrees(a, b, dump);
      }
    } else {
      var b := IncomparableTwin(a, parse, dump);
    }
  }

  /** One such pair of cells, spelled out: the text `["[1]"]` and the text `["[1] "]`. */
  lemma IncomparablePair(parse: string -> Option<Json>, dump: Json -> string) returns (a: Json, b: Json)
    requires parse("[1]") == parse("[1] ") == Some(List([Num(1.0)]))
    requires parse("[\"[1]\"]") == Some(List([Text("[1]", parse("[1]"))]))
    requires parse("[\"[1] \"]") == Some(List([Text("[1] ", parse("[1] "))]))
    ensures a.Text? && a.spelling == "[\"[1]\"]" && b.Text? && b.spelling == "[\"[1] \"]"
    ensures Coherent(a, parse) && Coherent(b, parse)
    ensures Canonical(a, dump) == Canonical(b, dump) && !Equivalent(a, b)
  {
    var one := List([Num(1.0)]);
    var x, y := Text("[1]", Some(one)), Text("[1] ", Some(one));
    a, b := Text("[\"[1]\"]", Some(List([x]))), Text("[\"[1] \"]", Some(List([y])));
    assert Coherent(one, parse);
    assert Coherent(x, parse) && Coherent(y, parse);
    assert Canonical(x, dump) == Canonical(y, dump);
    assert Canonical(List([x]), dump).items == Canonical(List([y]), dump).items;
    assert x.spelling[|x.spelling| - 1] != y.spelling[|y.spelling| - 1];
    assert !PyEqual(x, y);
    assert !JsonEquivalent([x][0], [y][0]);
  }
}
