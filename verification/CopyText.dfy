/** Rows in PostgreSQL's COPY text format: the importer's writer against a reader that follows
    the Text Format rules of the COPY documentation. */
module CopyText {
  import opened Wrappers

  /** A converted value; `None` is SQL NULL. */
  type Value = Option<string>
  type Row = seq<Value>

  const COPY_BATCH_SIZE: nat := 1000

  const BACKSPACE: char := '\U{8}'
  const FORM_FEED: char := '\U{c}'
  const VERTICAL_TAB: char := '\U{b}'

  // ---- Writer ----

  function EscapeChar(c: char): string
  {
    if c == '\\' then "\\\\"
    else if c == BACKSPACE then "\\b"
    else if c == FORM_FEED then "\\f"
    else if c == '\n' then "\\n"
    else if c == '\r' then "\\r"
    else if c == '\t' then "\\t"
    else if c == VERTICAL_TAB then "\\v"
    else [c]
  }

  function EscapeText(s: string): string
  {
    if s == "" then "" else EscapeChar(s[0]) + EscapeText(s[1..])
  }

  function EncodeCopyText(v: Value): string
  {
    match v case None => "\\N" case Some(s) => EscapeText(s)
  }

  function RowText(row: Row): string
  {
    if row == [] then "" else if |row| == 1 then EncodeCopyText(row[0])
    else EncodeCopyText(row[0]) + "\t" + RowText(row[1..])
  }

  function Line(row: Row): string
  {
    RowText(row) + "\n"
  }

  function Lines(rows: seq<Row>): string
  {
    if rows == [] then "" else Line(rows[0]) + Lines(rows[1..])
  }

  const TERMINATOR: string := "\\.\n"

  // ---- Reader ----

  /** Characters before the first unescaped `stop`; a backslash protects what follows it. */
  function Scan(s: string, stop: char): (i: nat)
    ensures i <= |s|
  {
    if s == "" || s[0] == stop then 0
    else if s[0] == '\\' && |s| >= 2 then 2 + Scan(s[2..], stop)
    else 1 + Scan(s[1..], stop)
  }

  predicate IsOctal(c: char) { '0' <= c <= '7' }

  predicate IsHex(c: char) { '0' <= c <= '9' || 'a' <= c <= 'f' || 'A' <= c <= 'F' }

  function DigitValue(c: char): nat
    requires IsHex(c)
  {
    if '0' <= c <= '9' then c as int - '0' as int
    else if 'a' <= c <= 'f' then c as int - 'a' as int + 10
    else c as int - 'A' as int + 10
  }

  /** Length of the run of at most `limit` digits at the front. */
  function Run(s: string, octal: bool, limit: nat): (n: nat)
    ensures n <= |s| && n <= limit
    ensures forall i | 0 <= i < n :: IsHex(s[i])
  {
    if limit == 0 || s == "" || !(if octal then IsOctal(s[0]) else IsHex(s[0])) then 0
    else 1 + Run(s[1..], octal, limit - 1)
  }

  function Number(s: string, base: nat): nat
    requires forall i | 0 <= i < |s| :: IsHex(s[i])
  {
    if s == "" then 0 else Number(s[..|s| - 1], base) * base + DigitValue(s[|s| - 1])
  }

  /** Backslash sequences: the named controls, one to three octal digits, `x` with one or two
      hexadecimal digits, and any other character standing for itself. */
  function Unescape(s: string): string
    decreases |s|
  {
    if s == "" then ""
    else if s[0] != '\\' || |s| == 1 then [s[0]] + Unescape(s[1..])
    else
      var c := s[1];
      if c == 'b' then [BACKSPACE] + Unescape(s[2..])
      else if c == 'f' then [FORM_FEED] + Unescape(s[2..])
      else if c == 'n' then "\n" + Unescape(s[2..])
      else if c == 'r' then "\r" + Unescape(s[2..])
      else if c == 't' then "\t" + Unescape(s[2..])
      else if c == 'v' then [VERTICAL_TAB] + Unescape(s[2..])
      else if IsOctal(c) then
        var n := Run(s[1..], true, 3);
        assert n >= 1;
        [(Number(s[1..][..n], 8) % 256) as char] + Unescape(s[1 + n..])
      else if c == 'x' && |s| > 2 && IsHex(s[2]) then
        var n := Run(s[2..], false, 2);
        [(Number(s[2..][..n], 16) % 256) as char] + Unescape(s[2 + n..])
      else [c] + Unescape(s[2..])
  }

  function DecodeField(raw: string): Value
  {
    if raw == "\\N" then None else Some(Unescape(raw))
  }

  function ParseLine(line: string): Row
    decreases |line|
  {
    var i := Scan(line, '\t');
    if i == |line| then [DecodeField(line)] else [DecodeField(line[..i])] + ParseLine(line[i + 1..])
  }

  /** Rows up to the `\.` line, and what follows it; `None` if the stream ends before one. */
  function ParseBlock(s: string): Option<(seq<Row>, string)>
    decreases |s|
  {
    var i := Scan(s, '\n');
    if i == |s| then None
    else if s[..i] == "\\." then Some(([], s[i + 1..]))
    else
      match ParseBlock(s[i + 1..])
      case None => None
      case Some((rows, rest)) => Some(([ParseLine(s[..i])] + rows, rest))
  }

  // ---- What the writer never emits ----

  /** Text in which every backslash is followed by one of the writer's escape letters and no
      line feed, carriage return or tab stands by itself. */
  predicate Escaped(s: string, tabs: bool)
  {
    if s == "" then true
    else if s[0] == '\\' then |s| >= 2 && s[1] in "\\bfnrtvN" && Escaped(s[2..], tabs)
    else s[0] != '\n' && s[0] != '\r' && (s[0] == '\t' ==> tabs) && Escaped(s[1..], tabs)
  }

  lemma {:induction false} EscapedConcat(x: string, y: string, tabs: bool)
    requires Escaped(x, tabs) && Escaped(y, tabs)
    ensures Escaped(x + y, tabs)
    decreases |x|
  {
    if x == "" {
      assert x + y == y;
    } else if x[0] == '\\' {
      assert (x + y)[2..] == x[2..] + y;
      EscapedConcat(x[2..], y, tabs);
    } else {
      assert (x + y)[1..] == x[1..] + y;
      EscapedConcat(x[1..], y, tabs);
    }
  }

  lemma {:induction false} EscapeTextEscaped(s: string, tabs: bool)
    ensures Escaped(EscapeText(s), tabs)
    decreases |s|
  {
    if s != "" {
      EscapeTextEscaped(s[1..], tabs);
      var e := EscapeChar(s[0]);
      assert e == [s[0]] || (|e| == 2 && e[2..] == "");
      assert |e| == 1 ==> e[1..] == "";
      assert Escaped(e, tabs);
      EscapedConcat(e, EscapeText(s[1..]), tabs);
    }
  }

  lemma EncodeEscaped(v: Value, tabs: bool)
    ensures Escaped(EncodeCopyText(v), tabs)
  {
    match v
    case None => assert "\\N"[2..] == "";
    case Some(s) => EscapeTextEscaped(s, tabs);
  }

  lemma {:induction false} RowEscaped(row: Row)
    ensures Escaped(RowText(row), true)
    decreases |row|
  {
    if row != [] {
      EncodeEscaped(row[0], true);
      if |row| > 1 {
        RowEscaped(row[1..]);
        assert "\t"[1..] == "" && Escaped("\t", true);
        EscapedConcat(EncodeCopyText(row[0]), "\t", true);
        EscapedConcat(EncodeCopyText(row[0]) + "\t", RowText(row[1..]), true);
      }
    }
  }

  /** The reader stops exactly at the end of escaped text, wherever it is embedded. */
  lemma {:induction false} ScanStopsAfter(x: string, stop: char, rest: string)
    requires Escaped(x, stop == '\n') && (stop == '\t' || stop == '\n')
    requires rest == "" || rest[0] == stop
    ensures Scan(x + rest, stop) == |x|
    decreases |x|
  {
    var s := x + rest;
    if x == "" {
      assert s == rest;
    } else if x[0] == '\\' {
      assert s[2..] == x[2..] + rest;
      ScanStopsAfter(x[2..], stop, rest);
    } else {
      assert s[1..] == x[1..] + rest;
      ScanStopsAfter(x[1..], stop, rest);
    }
  }

  // ---- Round trips ----

  lemma {:induction false} UnescapeEscape(s: string)
    ensures Unescape(EscapeText(s)) == s
    decreases |s|
  {
    hide Unescape, EscapeChar;
    if s == "" {
      assert Unescape("") == "" by {
        UnescapeNothing();
      }
    } else {
      UnescapeEscape(s[1..]);
      UnescapeStep(s[0], EscapeText(s[1..]));
      assert s == [s[0]] + s[1..];
    }
  }

  lemma UnescapeNothing()
    ensures Unescape("") == ""
  {
  }

  /** One written character reads back as itself, whatever follows. */
  lemma UnescapeStep(c: char, tail: string)
    ensures Unescape(EscapeChar(c) + tail) == [c] + Unescape(tail)
  {
    hide Run, Number;
    var e := EscapeChar(c);
    var whole := e + tail;
    if |e| == 1 {
      assert whole[1..] == tail;
    } else {
      assert whole[2..] == tail;
      assert whole[0] == '\\' && whole[1] == e[1];
    }
  }

  /** No string is written as the NULL marker. */
  lemma EscapeNotNull(s: string)
    ensures EscapeText(s) != "\\N"
  {
    if s != "" {
      var e := EscapeChar(s[0]);
      assert EscapeText(s)[0] == e[0];
      if |e| == 2 {
        assert EscapeText(s)[1] == e[1];
      }
    }
  }

  lemma FieldRoundTrip(v: Value)
    ensures DecodeField(EncodeCopyText(v)) == v
  {
    match v
    case None =>
    case Some(s) =>
      EscapeNotNull(s);
      UnescapeEscape(s);
  }

  lemma {:induction false} RowRoundTrip(row: Row)
    requires row != []
    ensures ParseLine(RowText(row)) == row
    decreases |row|
  {
    hide Scan, EncodeCopyText, DecodeField, Escaped;
    var first := EncodeCopyText(row[0]);
    EncodeEscaped(row[0], false);
    FieldRoundTrip(row[0]);
    if |row| == 1 {
      ScanStopsAfter(first, '\t', "");
      assert first + "" == first;
    } else {
      var rest := "\t" + RowText(row[1..]);
      ScanStopsAfter(first, '\t', rest);
      assert RowText(row) == first + rest;
      assert RowText(row)[..|first|] == first;
      assert RowText(row)[|first| + 1..] == RowText(row[1..]);
      RowRoundTrip(row[1..]);
      assert row == [row[0]] + row[1..];
    }
  }

  /** No data line is the terminator. */
  lemma RowIsNotTerminator(row: Row)
    ensures RowText(row) != "\\."
  {
    RowEscaped(row);
    assert "\\."[0] == '\\' && "\\."[1] == '.';
    assert !Escaped("\\.", true);
  }

  lemma {:induction false} LinesAppend(rows: seq<Row>, row: Row)
    ensures Lines(rows + [row]) == Lines(rows) + Line(row)
    decreases |rows|
  {
    hide Line;
    var all := rows + [row];
    if rows == [] {
      assert all == [row] && all[1..] == [];
      assert Lines([]) == "";
      assert Line(row) + "" == "" + Line(row);
    } else {
      assert all[1..] == rows[1..] + [row];
      LinesAppend(rows[1..], row);
      Associative(Line(rows[0]), Lines(rows[1..]), Line(row));
    }
  }

  /** One line in front of anything is read as one row. */
  lemma {:induction false} LineRoundTrip(row: Row, after: string)
    requires row != []
    ensures ParseBlock(Line(row) + after) ==
            match ParseBlock(after) case None => None case Some((rows, rest)) => Some(([row] + rows, rest))
  {
    hide RowText, ParseLine, Scan;
    var line, s := RowText(row), Line(row) + after;
    Associative(line, "\n", after);
    RowEscaped(row);
    ScanStopsAfter(line, '\n', "\n" + after);
    assert s[..|line|] == line && s[|line| + 1..] == after;
    RowIsNotTerminator(row);
    RowRoundTrip(row);
  }

  lemma TerminatorEnds(rest: string)
    ensures ParseBlock(TERMINATOR + rest) == Some(([], rest))
  {
    var s := TERMINATOR + rest;
    assert s[0] == '\\' && s[1] == '.' && s[2] == '\n';
    assert Scan(s[2..], '\n') == 0;
    assert Scan(s, '\n') == 2;
    assert s[..2] == "\\." && s[3..] == rest;
  }

  /** Reading the emitted block back gives exactly the rows, in order, and leaves whatever
      follows the terminator untouched. */
  lemma {:induction false} BlockRoundTrip(rows: seq<Row>, rest: string)
    requires forall i | 0 <= i < |rows| :: rows[i] != []
    ensures ParseBlock(Lines(rows) + (TERMINATOR + rest)) == Some((rows, rest))
    decreases |rows|
  {
    hide Line, ParseBlock;
    if rows == [] {
      TerminatorEnds(rest);
      assert Lines(rows) + (TERMINATOR + rest) == TERMINATOR + rest;
    } else {
      BlockRoundTrip(rows[1..], rest);
      LineRoundTrip(rows[0], Lines(rows[1..]) + (TERMINATOR + rest));
      Associative(Line(rows[0]), Lines(rows[1..]), TERMINATOR + rest);
      assert rows == [rows[0]] + rows[1..];
    }
  }

  function CountTabs(s: string): nat
  {
    if s == "" then 0 else (if s[0] == '\t' then 1 else 0) + CountTabs(s[1..])
  }

  lemma {:induction false} CountTabsConcat(x: string, y: string)
    ensures CountTabs(x + y) == CountTabs(x) + CountTabs(y)
    decreases |x|
  {
    if x == "" {
      assert x + y == y;
    } else {
      assert (x + y)[1..] == x[1..] + y;
      CountTabsConcat(x[1..], y);
    }
  }

  lemma {:induction false} EscapedHasNoTab(s: string)
    requires Escaped(s, false)
    ensures CountTabs(s) == 0
    decreases |s|
  {
    if s != "" {
      if s[0] == '\\' {
        EscapedHasNoTab(s[2..]);
        assert s[1..][1..] == s[2..];
      } else {
        EscapedHasNoTab(s[1..]);
      }
    }
  }

  /** A line has one raw tab fewer than it has columns. */
  lemma {:induction false} RowTabs(row: Row)
    requires row != []
    ensures CountTabs(RowText(row)) == |row| - 1
    decreases |row|
  {
    EncodeEscaped(row[0], false);
    EscapedHasNoTab(EncodeCopyText(row[0]));
    if |row| > 1 {
      RowTabs(row[1..]);
      CountTabsConcat(EncodeCopyText(row[0]) + "\t", RowText(row[1..]));
      CountTabsConcat(EncodeCopyText(row[0]), "\t");
    }
  }

  // ---- Streaming a table ----

  class TextStream {
    var text: string

    constructor ()
      ensures text == ""
    {
      text := "";
    }

    method Write(s: string)
      modifies this
      ensures text == old(text) + s
    {
      text := text + s;
    }
  }

  class Cursor<V> {
    const rows: seq<seq<V>>
    var position: nat

    ghost predicate Valid()
      reads this
    {
      position <= |rows|
    }

    constructor (rows: seq<seq<V>>)
      ensures Valid() && this.rows == rows && position == 0
    {
      this.rows := rows;
      position := 0;
    }

    method FetchMany(size: nat) returns (batch: seq<seq<V>>)
      requires Valid() && size > 0
      modifies this
      ensures Valid() && position == old(position) + |batch|
      ensures batch == rows[old(position)..position]
      ensures batch == [] <==> old(position) == |rows|
    {
      var end := if |rows| - position <= size then |rows| else position + size;
      batch := rows[position..end];
      position := end;
    }
  }

  function ConvertRow<V, C>(row: seq<V>, columns: seq<C>, convert: (V, C) -> Value): Row
    requires |row| == |columns|
  {
    seq(|columns|, i requires 0 <= i < |columns| => convert(row[i], columns[i]))
  }

  function ConvertRows<V, C>(rows: seq<seq<V>>, columns: seq<C>, convert: (V, C) -> Value): (r: seq<Row>)
    requires forall i | 0 <= i < |rows| :: |rows[i]| == |columns|
    ensures |r| == |rows|
  {
    seq(|rows|, i requires 0 <= i < |rows| => ConvertRow(rows[i], columns, convert))
  }

  /** Nothing at all is written for an empty table; otherwise the header, one line per row in
      order across all batches, and the terminator. */
  method StreamTable<V, C>(out: TextStream, cursor: Cursor<V>, header: string, columns: seq<C>,
                           convert: (V, C) -> Value)
    returns (rowCount: nat)
    requires cursor.Valid() && cursor.position == 0
    requires forall i | 0 <= i < |cursor.rows| :: |cursor.rows[i]| == |columns|
    modifies out, cursor
    ensures rowCount == |cursor.rows|
    ensures var converted := ConvertRows(cursor.rows, columns, convert);
            out.text == old(out.text) + (if cursor.rows == [] then "" else header + (Lines(converted) + TERMINATOR))
    ensures columns != [] && cursor.rows != [] ==>
              && |old(out.text)| + |header| <= |out.text|
              && ParseBlock(out.text[|old(out.text)| + |header|..])
                 == Some((ConvertRows(cursor.rows, columns, convert), ""))
  {
    hide Lines, Line, ParseBlock;
    var batch := cursor.FetchMany(COPY_BATCH_SIZE);
    rowCount := 0;
    if batch == [] {
      return;
    }
    ghost var converted := ConvertRows(cursor.rows, columns, convert);
    rowCount := StreamRows(out, cursor, header, batch, columns, convert);
    out.Write(TERMINATOR);
    Associative(old(out.text), header + Lines(converted), TERMINATOR);
    Associative(header, Lines(converted), TERMINATOR);
    if columns != [] {
      assert out.text[|old(out.text)| + |header|..] == Lines(converted) + (TERMINATOR + "");
      BlockRoundTrip(converted, "");
    }
  }

  /** The header and the batch loop. */
  method StreamRows<V, C>(out: TextStream, cursor: Cursor<V>, header: string, first: seq<seq<V>>, columns: seq<C>,
                          convert: (V, C) -> Value)
    returns (rowCount: nat)
    requires cursor.Valid() && first != [] && first == cursor.rows[..cursor.position]
    requires forall i | 0 <= i < |cursor.rows| :: |cursor.rows[i]| == |columns|
    modifies out, cursor
    ensures rowCount == |cursor.rows|
    ensures out.text == old(out.text) + (header + Lines(ConvertRows(cursor.rows, columns, convert)))
  {
    hide Line;
    ghost var converted := ConvertRows(cursor.rows, columns, convert);
    ghost var prefix := out.text + header;
    out.Write(header);
    var batch := first;
    rowCount := 0;
    assert converted[..0] == [];
    while batch != []
      invariant cursor.Valid() && rowCount + |batch| == cursor.position
      invariant batch == cursor.rows[rowCount..cursor.position]
      invariant batch == [] ==> rowCount == |cursor.rows|
      invariant out.text == prefix + Lines(converted[..rowCount])
      decreases |cursor.rows| - rowCount
    {
      rowCount := WriteBatch(out, batch, columns, convert, prefix, converted, rowCount);
      batch := cursor.FetchMany(COPY_BATCH_SIZE);
    }
    assert converted[..rowCount] == converted;
    Associative(old(out.text), header, Lines(converted));
  }

  method WriteBatch<V, C>(out: TextStream, batch: seq<seq<V>>, columns: seq<C>, convert: (V, C) -> Value,
                          ghost prefix: string, ghost converted: seq<Row>, start: nat)
    returns (rowCount: nat)
    requires forall i | 0 <= i < |batch| :: |batch[i]| == |columns|
    requires start + |batch| <= |converted|
    requires forall i | 0 <= i < |batch| :: converted[start + i] == ConvertRow(batch[i], columns, convert)
    requires out.text == prefix + Lines(converted[..start])
    modifies out
    ensures rowCount == start + |batch|
    ensures out.text == prefix + Lines(converted[..rowCount])
  {
    hide Lines;
    rowCount := start;
    for i := 0 to |batch|
      invariant rowCount == start + i
      invariant out.text == prefix + Lines(converted[..rowCount])
    {
      var row := ConvertRow(batch[i], columns, convert);
      out.Write(RowText(row) + "\n");
      assert converted[..rowCount + 1] == converted[..rowCount] + [row];
      LinesAppend(converted[..rowCount], row);
      Associative(prefix, Lines(converted[..rowCount]), Line(row));
      rowCount := rowCount + 1;
    }
  }
}
