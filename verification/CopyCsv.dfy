/** The COPY payload of the `psql` transport: CSV in which every non-null field is
    quoted, quotes are doubled, and null is the bare `\N`. */
module CopyCsv {
  import opened Prelude

  /** A field is a text or null. */
  type Field = Option<string>

  const NULL_MARK := "\\N"
  const TERMINATOR := "\\."

  // ----------------------------------------------------------------- quoting

  function Doubled(text: string, quote: char): string {
    if text == "" then ""
    else (if text[0] == quote then [quote, quote] else [text[0]]) + Doubled(text[1..], quote)
  }

  function Quoted(text: string, quote: char): string { [quote] + Doubled(text, quote) + [quote] }

  /** Reads a quoted text from after its opening quote: a doubled quote is one
      quote, a single one ends the text. */
  function TakeQuoted(s: string, quote: char): Option<(string, string)>
    decreases |s|
  {
    if s == "" then None
    else if s[0] != quote then Before(s[0], TakeQuoted(s[1..], quote))
    else if |s| > 1 && s[1] == quote then Before(quote, TakeQuoted(s[2..], quote))
    else Some(("", s[1..]))
  }

  function Before(c: char, read: Option<(string, string)>): Option<(string, string)> {
    match read
    case None => None
    case Some((text, rest)) => Some(([c] + text, rest))
  }

  lemma {:induction false} QuotedReadsBack(text: string, quote: char, rest: string)
    requires rest == "" || rest[0] != quote
    ensures TakeQuoted(Doubled(text, quote) + [quote] + rest, quote) == Some((text, rest))
    decreases |text|
  {
    if text == "" {
      assert Doubled(text, quote) + [quote] + rest == [quote] + rest;
    } else {
      QuotedReadsBack(text[1..], quote, rest);
      var inner := Doubled(text[1..], quote) + [quote] + rest;
      if text[0] == quote {
        assert Doubled(text, quote) + [quote] + rest == [quote, quote] + inner;
        assert ([quote, quote] + inner)[2..] == inner;
      } else {
        assert Doubled(text, quote) + [quote] + rest == [text[0]] + inner;
        assert ([text[0]] + inner)[1..] == inner;
      }
      assert [text[0]] + text[1..] == text;
    }
  }

  /** A SQL string literal, and the statement text after it, read back exactly. */
  lemma SqlStringReadsBack(text: string, rest: string)
    requires rest == "" || rest[0] != '\''
    ensures (Quoted(text, '\'') + rest)[0] == '\''
    ensures TakeQuoted((Quoted(text, '\'') + rest)[1..], '\'') == Some((text, rest))
  {
    QuotedReadsBack(text, '\'', rest);
    assert (Quoted(text, '\'') + rest)[1..] == Doubled(text, '\'') + ['\''] + rest;
  }

  // -------------------------------------------------------------------- writing

  function WriteField(f: Field): string {
    match f
    case None => NULL_MARK
    case Some(text) => Quoted(text, '"')
  }

  function WriteRow(row: seq<Field>): string
    requires row != []
  {
    if |row| == 1 then WriteField(row[0]) + "\n" else WriteField(row[0]) + "," + WriteRow(row[1..])
  }

  predicate Wide(rows: seq<seq<Field>>) { forall i :: 0 <= i < |rows| ==> rows[i] != [] }

  function WriteRows(rows: seq<seq<Field>>): string
    requires Wide(rows)
  {
    if rows == [] then "" else WriteRow(rows[0]) + WriteRows(rows[1..])
  }

  // -------------------------------------------------------------------- reading

  /** Reads an unquoted field up to the next separator. */
  function TakeBare(s: string): (string, string)
    ensures |TakeBare(s).1| <= |s|
  {
    if s == "" || s[0] == ',' || s[0] == '\n' then ("", s)
    else
      var (text, rest) := TakeBare(s[1..]);
      ([s[0]] + text, rest)
  }

  /** Only an unquoted null mark is null. */
  function ReadField(s: string): Option<(Field, string)> {
    if s != "" && s[0] == '"' then
      match TakeQuoted(s[1..], '"')
      case None => None
      case Some((text, rest)) => Some((Some(text), rest))
    else
      var (text, rest) := TakeBare(s);
      Some((if text == NULL_MARK then None else Some(text), rest))
  }

  function ReadRow(s: string): Option<(seq<Field>, string)>
    decreases |s|
  {
    match ReadField(s)
    case None => None
    case Some((f, rest)) =>
      if rest == "" then None
      else if rest[0] == '\n' then Some(([f], rest[1..]))
      else if rest[0] == ',' && |rest| <= |s| then
        match ReadRow(rest[1..])
        case None => None
        case Some((fs, after)) => Some(([f] + fs, after))
      else None
  }

  function ReadRows(s: string): Option<seq<seq<Field>>>
    decreases |s|
  {
    if s == "" then Some([])
    else
      match ReadRow(s)
      case None => None
      case Some((row, rest)) =>
        if |rest| >= |s| then None
        else
          match ReadRows(rest)
          case None => None
          case Some(rows) => Some([row] + rows)
  }

  lemma NullReadsBack(rest: string)
    requires rest != "" && (rest[0] == ',' || rest[0] == '\n')
    ensures ReadField(NULL_MARK + rest) == Some((None, rest))
  {
    var s := NULL_MARK + rest;
    assert TakeBare(rest) == ("", rest);
    assert s[1..] == ['N'] + rest && s[1..][1..] == rest;
    assert ['N'] + "" == "N" && ['\\'] + "N" == NULL_MARK;
    assert TakeBare(s[1..]) == ("N", rest);
    assert TakeBare(s) == (NULL_MARK, rest);
  }

  lemma FieldReadsBack(f: Field, rest: string)
    requires rest != "" && (rest[0] == ',' || rest[0] == '\n')
    ensures ReadField(WriteField(f) + rest) == Some((f, rest))
  {
    match f
    case Some(text) =>
      QuotedReadsBack(text, '"', rest);
      assert (Quoted(text, '"') + rest)[1..] == Doubled(text, '"') + ['"'] + rest;
    case None => NullReadsBack(rest);
  }

  /** A row whose first field ends at a newline. */
  lemma LastField(s: string, f: Field, after: string)
    requires ReadField(s) == Some((f, ['\n'] + after))
    ensures ReadRow(s) == Some(([f], after))
  {
    hide ReadField;
    assert (['\n'] + after)[1..] == after;
  }

  /** A row whose first field ends at a comma. */
  lemma NextField(s: string, f: Field, tail: string, fs: seq<Field>, after: string)
    requires ReadField(s) == Some((f, [','] + tail)) && |tail| < |s|
    requires ReadRow(tail) == Some((fs, after))
    ensures ReadRow(s) == Some(([f] + fs, after))
  {
    hide ReadField;
    assert ([','] + tail)[1..] == tail;
  }

  lemma {:induction false} RowReadsBack(row: seq<Field>, rest: string)
    requires row != []
    ensures ReadRow(WriteRow(row) + rest) == Some((row, rest))
    decreases |row|
  {
    hide ReadField, ReadRow, WriteField;
    if |row| == 1 {
      FieldReadsBack(row[0], ['\n'] + rest);
      assert WriteRow(row) + rest == WriteField(row[0]) + (['\n'] + rest);
      LastField(WriteRow(row) + rest, row[0], rest);
      assert [row[0]] == row;
    } else {
      var tail := WriteRow(row[1..]) + rest;
      FieldReadsBack(row[0], [','] + tail);
      assert WriteRow(row) + rest == WriteField(row[0]) + ([','] + tail);
      RowReadsBack(row[1..], rest);
      NextField(WriteRow(row) + rest, row[0], tail, row[1..], rest);
      assert [row[0]] + row[1..] == row;
    }
  }

  /** Reading back the payload returns the same rows: quotes, commas, newlines and
      the text `\N` survive, and null stays apart from every text. */
  lemma {:induction false} PayloadReadsBack(rows: seq<seq<Field>>)
    requires Wide(rows)
    ensures ReadRows(WriteRows(rows)) == Some(rows)
    decreases |rows|
  {
    if rows != [] {
      RowReadsBack(rows[0], WriteRows(rows[1..]));
      PayloadReadsBack(rows[1..]);
      assert [rows[0]] + rows[1..] == rows;
    }
  }

  /** No record is the bare end-of-data mark. */
  lemma NoRecordTerminates(row: seq<Field>)
    requires row != []
    ensures WriteRow(row) != TERMINATOR + "\n"
  {
    var field := WriteField(row[0]);
    assert WriteRow(row)[..|field|] == field;
    assert field[0] == '"' || field == NULL_MARK;
    assert (TERMINATOR + "\n")[0] == '\\' && (TERMINATOR + "\n")[1] == '.';
    assert field == NULL_MARK ==> WriteRow(row)[..2][1] == 'N' == WriteRow(row)[1];
    assert WriteRow(row)[0] == field[0];
  }

  // ------------------------------------------------------------- physical lines

  /** The end-of-data mark and a line end, with or without a carriage return: both end
      the data of an inline COPY. */
  predicate MarkStarts(s: string) { TERMINATOR + "\n" <= s || TERMINATOR + "\r\n" <= s }

  /** Some physical line of `s` is the end-of-data mark; `lineStart` says whether
      `s` itself begins a line. */
  predicate TerminatorLine(s: string, lineStart: bool) {
    s != "" && ((lineStart && MarkStarts(s)) || TerminatorLine(s[1..], s[0] == '\n'))
  }

  /** A text one of whose inner lines is the mark. */
  predicate HoldsTerminator(text: string) {
    text != "" && ((text[0] == '\n' && MarkStarts(text[1..])) || HoldsTerminator(text[1..]))
  }

  lemma DoubledTail(text: string, rest: string)
    requires text != "" && text[0] != '"'
    ensures (Doubled(text, '"') + "\"" + rest)[0] == text[0]
    ensures (Doubled(text, '"') + "\"" + rest)[1..] == Doubled(text[1..], '"') + "\"" + rest
  {
  }

  /** Quoting leaves the start of a text alone as far as it has no quotes. */
  lemma {:induction false} PrefixKept(prefix: string, text: string, rest: string)
    requires '"' !in prefix
    ensures prefix <= Doubled(text, '"') + "\"" + rest <==> prefix <= text
    decreases |prefix|
  {
    var s := Doubled(text, '"') + "\"" + rest;
    if prefix != "" {
      assert prefix == [prefix[0]] + prefix[1..] && prefix[0] != '"';
      if text != "" && text[0] != '"' {
        DoubledTail(text, rest);
        PrefixKept(prefix[1..], text[1..], rest);
        assert text == [text[0]] + text[1..] && s == [s[0]] + s[1..];
        StepInside(prefix, text);
        StepInside(prefix, s);
      } else {
        assert s[0] == '"';
      }
    }
  }

  lemma StepInside(prefix: string, s: string)
    requires prefix != "" && s != ""
    ensures prefix <= s <==> prefix[0] == s[0] && prefix[1..] <= s[1..]
  {
    if prefix[0] == s[0] && prefix[1..] <= s[1..] {
      assert prefix == [prefix[0]] + prefix[1..] && s[..|prefix|] == [s[0]] + s[1..][..|prefix| - 1];
    }
  }

  lemma InnerStart(text: string, rest: string)
    ensures MarkStarts(Doubled(text, '"') + "\"" + rest) <==> MarkStarts(text)
  {
    PrefixKept(TERMINATOR + "\n", text, rest);
    PrefixKept(TERMINATOR + "\r\n", text, rest);
  }

  lemma {:induction false} TextLines(text: string, rest: string, lineStart: bool)
    ensures TerminatorLine(Doubled(text, '"') + "\"" + rest, lineStart)
      <==> ((lineStart && MarkStarts(text)) || HoldsTerminator(text) || TerminatorLine(rest, false))
    decreases |text|
  {
    var s := Doubled(text, '"') + "\"" + rest;
    InnerStart(text, rest);
    if text == "" {
      assert s == "\"" + rest && s[1..] == rest;
    } else {
      var inner := Doubled(text[1..], '"') + "\"" + rest;
      TextLines(text[1..], rest, text[0] == '\n');
      if text[0] == '"' {
        SkipChar('"', inner, false);
        SkipChar('"', ['"'] + inner, lineStart);
        assert s == ['"'] + (['"'] + inner);
      } else {
        DoubledTail(text, rest);
      }
    }
  }

  lemma SkipChar(c: char, rest: string, lineStart: bool)
    requires c != '\\'
    ensures TerminatorLine([c] + rest, lineStart) <==> TerminatorLine(rest, c == '\n')
  {
    assert ([c] + rest)[1..] == rest;
    assert ([c] + rest)[0] == c && (TERMINATOR + "\n")[0] == '\\' && (TERMINATOR + "\r\n")[0] == '\\';
  }

  predicate FieldHolds(f: Field) { f.Some? && HoldsTerminator(f.value) }

  lemma NullLines(rest: string, lineStart: bool)
    ensures TerminatorLine(NULL_MARK + rest, lineStart) <==> TerminatorLine(rest, false)
  {
    SkipChar('N', rest, false);
    assert (NULL_MARK + rest)[1..] == ['N'] + rest;
  }

  lemma FieldLines(f: Field, rest: string, lineStart: bool)
    ensures TerminatorLine(WriteField(f) + rest, lineStart) <==> (FieldHolds(f) || TerminatorLine(rest, false))
  {
    match f
    case None => NullLines(rest, lineStart);
    case Some(text) =>
      var inner := Doubled(text, '"') + "\"" + rest;
      assert WriteField(f) + rest == ['"'] + inner;
      SkipChar('"', inner, lineStart);
      TextLines(text, rest, false);
  }

  predicate RowHolds(row: seq<Field>) { exists i :: 0 <= i < |row| && FieldHolds(row[i]) }

  lemma RowHoldsFirst(row: seq<Field>)
    requires row != []
    ensures RowHolds(row) <==> (FieldHolds(row[0]) || RowHolds(row[1..]))
  {
    if RowHolds(row) {
      var i :| 0 <= i < |row| && FieldHolds(row[i]);
      if i > 0 { assert FieldHolds(row[1..][i - 1]); }
    }
    if RowHolds(row[1..]) {
      var i :| 0 <= i < |row[1..]| && FieldHolds(row[1..][i]);
      assert FieldHolds(row[i + 1]);
    }
  }

  lemma {:induction false} RowLines(row: seq<Field>, rest: string, lineStart: bool)
    requires row != []
    ensures TerminatorLine(WriteRow(row) + rest, lineStart) <==> (RowHolds(row) || TerminatorLine(rest, true))
    decreases |row|
  {
    hide TerminatorLine, FieldHolds, WriteField;
    RowHoldsFirst(row);
    if |row| == 1 {
      FieldLines(row[0], ['\n'] + rest, lineStart);
      SkipChar('\n', rest, false);
      assert WriteRow(row) + rest == WriteField(row[0]) + (['\n'] + rest);
    } else {
      var tail := WriteRow(row[1..]) + rest;
      FieldLines(row[0], [','] + tail, lineStart);
      SkipChar(',', tail, false);
      assert WriteRow(row) + rest == WriteField(row[0]) + ([','] + tail);
      RowLines(row[1..], rest, false);
    }
  }

  predicate SomeRowHolds(rows: seq<seq<Field>>) { exists i :: 0 <= i < |rows| && RowHolds(rows[i]) }

  lemma SomeRowHoldsFirst(rows: seq<seq<Field>>)
    requires rows != []
    ensures SomeRowHolds(rows) <==> (RowHolds(rows[0]) || SomeRowHolds(rows[1..]))
  {
    hide RowHolds;
    if SomeRowHolds(rows) {
      var i :| 0 <= i < |rows| && RowHolds(rows[i]);
      if i > 0 { assert RowHolds(rows[1..][i - 1]); }
    }
    if SomeRowHolds(rows[1..]) {
      var i :| 0 <= i < |rows[1..]| && RowHolds(rows[1..][i]);
      assert RowHolds(rows[i + 1]);
    }
  }

  /** A physical line of the payload is the end-of-data mark exactly when some text
      has it as an inner line of its own, ended by a newline or by CR LF. */
  lemma {:induction false} TerminatorLinesExactly(rows: seq<seq<Field>>)
    requires Wide(rows)
    ensures TerminatorLine(WriteRows(rows), true) <==> SomeRowHolds(rows)
    decreases |rows|
  {
    if rows != [] {
      SomeRowHoldsFirst(rows);
      RowLines(rows[0], WriteRows(rows[1..]), true);
      TerminatorLinesExactly(rows[1..]);
    }
  }

  /** Such payloads exist: the records are sound, but one physical line is not. */
  lemma TerminatorLineExample()
    ensures TerminatorLine(WriteRows([[Some("a\n\\.\nb")]]), true)
    ensures TerminatorLine(WriteRows([[Some("a\n\\.\r\nb")]]), true)
  {
    InnerLine("\\.\nb");
    InnerLine("\\.\r\nb");
    assert "a\n\\.\nb" == "a\n" + "\\.\nb" && "a\n\\.\r\nb" == "a\n" + "\\.\r\nb";
  }

  lemma InnerLine(line: string)
    requires MarkStarts(line)
    ensures TerminatorLine(WriteRows([[Some("a\n" + line)]]), true)
  {
    var text := "a\n" + line;
    assert text[1..][1..] == line;
    assert HoldsTerminator(text[1..]);
    var rows := [[Some(text)]];
    assert FieldHolds(rows[0][0]);
    assert RowHolds(rows[0]);
    TerminatorLinesExactly(rows);
  }
}
