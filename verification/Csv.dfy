/**
 The CSV reader shared by the imports (bulkOrders.ts) and the CSV writer of the report
 exports (app.ts). Quoting follows section 2 of RFC 4180.
 */
module Csv {
  type Row = seq<string>

  // ---------------------------------------------------------------------------
  // Trimming, as `String.prototype.trim`
  // ---------------------------------------------------------------------------

  predicate IsSpace(c: char) {
    || c in "\t\n\r " || c == '\U{000B}' || c == '\U{000C}' || c == '\U{00A0}' || c == '\U{1680}'
    || '\U{2000}' <= c <= '\U{200A}' || c == '\U{2028}' || c == '\U{2029}' || c == '\U{202F}'
    || c == '\U{205F}' || c == '\U{3000}' || c == '\U{FEFF}'
  }

  function TrimStart(s: string): string {
    if s != "" && IsSpace(s[0]) then TrimStart(s[1..]) else s
  }

  function TrimEnd(s: string): string {
    if s != "" && IsSpace(s[|s| - 1]) then TrimEnd(s[..|s| - 1]) else s
  }

  function Trim(s: string): string { TrimEnd(TrimStart(s)) }

  // ---------------------------------------------------------------------------
  // Reader
  // ---------------------------------------------------------------------------

  /** The reader between two characters. */
  datatype Scan = Scan(rows: seq<Row>, row: Row, cell: string, quoted: bool)

  const Empty := Scan([], [], "", false)

  predicate Blank(row: Row) {
    forall i :: 0 <= i < |row| ==> row[i] == ""
  }

  function AddRow(rows: seq<Row>, row: Row): seq<Row> {
    if Blank(row) then rows else rows + [row]
  }

  function EndCell(s: Scan): Scan {
    s.(row := s.row + [Trim(s.cell)], cell := "")
  }

  function EndLine(s: Scan): Scan {
    Scan(AddRow(s.rows, s.row + [Trim(s.cell)]), [], "", s.quoted)
  }

  predicate StartsWith(s: string, c: char) { s != "" && s[0] == c }

  function Consume(input: string, s: Scan): Scan {
    if input == "" then s
    else if input[0] == '"' && s.quoted && StartsWith(input[1..], '"') then
      Consume(input[2..], s.(cell := s.cell + ['"']))
    else if input[0] == '"' then Consume(input[1..], s.(quoted := !s.quoted))
    else if input[0] == ',' && !s.quoted then Consume(input[1..], EndCell(s))
    else if (input[0] == '\n' || input[0] == '\r') && !s.quoted then
      Consume(if input[0] == '\r' && StartsWith(input[1..], '\n') then input[2..] else input[1..], EndLine(s))
    else Consume(input[1..], s.(cell := s.cell + [input[0]]))
  }

  function Finish(s: Scan): seq<Row> {
    if s.cell != "" || s.row != [] then AddRow(s.rows, s.row + [Trim(s.cell)]) else s.rows
  }

  function Parse(input: string): seq<Row> { Finish(Consume(input, Empty)) }

  /** The index loop of the source. */
  method ParseCsv(input: string) returns (rows: seq<Row>)
    ensures rows == Parse(input)
  {
    rows := [];
    var row: Row := [];
    var cell := "";
    var quoted := false;
    var index := 0;
    while index < |input|
      invariant 0 <= index <= |input|
      invariant Consume(input[index..], Scan(rows, row, cell, quoted)) == Consume(input, Empty)
    {
      ghost var rest := input[index..];
      assert rest[1..] == input[index + 1..];
      assert index + 1 < |input| ==> rest[2..] == input[index + 2..];
      var character := input[index];
      var nextIs := (c: char) => index + 1 < |input| && input[index + 1] == c;
      if character == '"' && quoted && nextIs('"') {
        cell := cell + ['"'];
        index := index + 1;
      } else if character == '"' {
        quoted := !quoted;
      } else if character == ',' && !quoted {
        row := row + [Trim(cell)];
        cell := "";
      } else if (character == '\n' || character == '\r') && !quoted {
        if character == '\r' && nextIs('\n') {
          index := index + 1;
        }
        row := row + [Trim(cell)];
        cell := "";
        if exists i :: 0 <= i < |row| && row[i] != "" {
          rows := rows + [row];
        }
        row := [];
      } else {
        cell := cell + [character];
      }
      index := index + 1;
    }
    if cell != "" || row != [] {
      row := row + [Trim(cell)];
      if exists i :: 0 <= i < |row| && row[i] != "" {
        rows := rows + [row];
      }
    }
  }

  // ---------------------------------------------------------------------------
  // Writer
  // ---------------------------------------------------------------------------

  /** A leading formula character is defused with an apostrophe. */
  function Sanitize(raw: string): string {
    if raw != "" && raw[0] in "=+-@" then "'" + raw else raw
  }

  predicate NeedsQuotes(s: string) { '"' in s || ',' in s || '\n' in s }

  function Doubled(s: string): string {
    if s == "" then ""
    else (if s[0] == '"' then "\"\"" else [s[0]]) + Doubled(s[1..])
  }

  function Quote(safe: string): string {
    if NeedsQuotes(safe) then "\"" + Doubled(safe) + "\"" else safe
  }

  function CsvCell(raw: string): string { Quote(Sanitize(raw)) }

  function SanitizeRow(cells: Row): Row {
    if cells == [] then [] else [Sanitize(cells[0])] + SanitizeRow(cells[1..])
  }

  /** Cells that are sanitised already, quoted where needed and joined with commas. */
  function RowText(cells: Row): string {
    if cells == [] then ""
    else if |cells| == 1 then Quote(cells[0])
    else Quote(cells[0]) + ("," + RowText(cells[1..]))
  }

  function CsvRow(cells: Row): string { RowText(SanitizeRow(cells)) }

  /** A row is its written cells joined with commas. */
  lemma CsvRowJoins(cells: Row)
    ensures CsvRow(cells) ==
              if cells == [] then ""
              else if |cells| == 1 then CsvCell(cells[0])
              else CsvCell(cells[0]) + "," + CsvRow(cells[1..])
  {
    if cells != [] {
      var safe, rest := SanitizeRow(cells), SanitizeRow(cells[1..]);
      SanitizeKeepsWidth(cells[1..]);
      assert safe == [Sanitize(cells[0])] + rest && safe[1..] == rest;
      var head, tail := CsvCell(cells[0]), CsvRow(cells[1..]);
      assert head + "," + tail == head + ("," + tail);
    }
  }

  lemma {:induction false} SanitizeKeepsWidth(cells: Row)
    ensures |SanitizeRow(cells)| == |cells|
  {
    if cells != [] {
      SanitizeKeepsWidth(cells[1..]);
    }
  }

  function JoinLines(lines: seq<string>, lineEnd: string): string {
    if lines == [] then ""
    else if |lines| == 1 then lines[0]
    else lines[0] + lineEnd + JoinLines(lines[1..], lineEnd)
  }

  function CsvLines(rows: seq<Row>): seq<string> {
    if rows == [] then [] else [CsvRow(rows[0])] + CsvLines(rows[1..])
  }

  // ---------------------------------------------------------------------------
  // Lines compose
  // ---------------------------------------------------------------------------

  function Quotes(s: string): nat {
    if s == "" then 0 else (if s[0] == '"' then 1 else 0) + Quotes(s[1..])
  }

  /** Being inside quotes is the parity of the quote characters read. */
  lemma {:induction false} QuotedIsParity(input: string, s: Scan)
    ensures Consume(input, s).quoted == (s.quoted != (Quotes(input) % 2 == 1))
    decreases |input|
  {
    if input != "" {
      if input[0] == '"' && s.quoted && StartsWith(input[1..], '"') {
        assert input[1..][1..] == input[2..];
        QuotedIsParity(input[2..], s.(cell := s.cell + ['"']));
      } else if input[0] == '"' {
        QuotedIsParity(input[1..], s.(quoted := !s.quoted));
      } else if input[0] == ',' && !s.quoted {
        QuotedIsParity(input[1..], EndCell(s));
      } else if (input[0] == '\n' || input[0] == '\r') && !s.quoted {
        if input[0] == '\r' && StartsWith(input[1..], '\n') {
          assert input[1..][1..] == input[2..];
          QuotedIsParity(input[2..], EndLine(s));
        } else {
          QuotedIsParity(input[1..], EndLine(s));
        }
      } else {
        QuotedIsParity(input[1..], s.(cell := s.cell + [input[0]]));
      }
    }
  }

  /** A second line end right after one reads a blank line, which is dropped. */
  lemma EndLineTwice(s: Scan)
    ensures EndLine(EndLine(s)) == EndLine(s)
  {
    assert [] + [Trim("")] == [""];
  }

  /** Reading can stop and resume anywhere, unless a quote character comes next. */
  lemma {:induction false} ConsumeSplits(a: string, rest: string, s: Scan)
    requires !StartsWith(rest, '"')
    ensures Consume(a + rest, s) == Consume(rest, Consume(a, s))
    decreases |a|
  {
    var input := a + rest;
    if a == "" {
      assert input == rest;
    } else {
      assert input[1..] == a[1..] + rest;
      if |a| == 1 && a[0] == '\r' && !s.quoted && StartsWith(rest, '\n') {
        assert input[2..] == rest[1..];
        EndLineTwice(s);
      } else {
        if |a| > 1 {
          assert input[2..] == a[2..] + rest;
        }
        assert StartsWith(input[1..], '"') == StartsWith(a[1..], '"');
        if a[0] == '"' && s.quoted && StartsWith(a[1..], '"') {
          ConsumeSplits(a[2..], rest, s.(cell := s.cell + ['"']));
        } else if a[0] == '"' {
          ConsumeSplits(a[1..], rest, s.(quoted := !s.quoted));
        } else if a[0] == ',' && !s.quoted {
          ConsumeSplits(a[1..], rest, EndCell(s));
        } else if (a[0] == '\n' || a[0] == '\r') && !s.quoted {
          if a[0] == '\r' && StartsWith(a[1..], '\n') {
            ConsumeSplits(a[2..], rest, EndLine(s));
          } else {
            ConsumeSplits(a[1..], rest, EndLine(s));
          }
        } else {
          ConsumeSplits(a[1..], rest, s.(cell := s.cell + [a[0]]));
        }
      }
    }
  }

  function Prepend(rows: seq<Row>, s: Scan): Scan { s.(rows := rows + s.rows) }

  lemma AddRowAfter(before: seq<Row>, rows: seq<Row>, row: Row)
    ensures AddRow(before + rows, row) == before + AddRow(rows, row)
  {
  }

  /** Rows read before do not influence what follows. */
  lemma {:induction false} EarlierRowsStay(input: string, before: seq<Row>, s: Scan)
    ensures Consume(input, Prepend(before, s)) == Prepend(before, Consume(input, s))
    ensures Finish(Prepend(before, Consume(input, s))) == before + Finish(Consume(input, s))
    decreases |input|
  {
    if input == "" {
      AddRowAfter(before, s.rows, s.row + [Trim(s.cell)]);
    } else if input[0] == '"' && s.quoted && StartsWith(input[1..], '"') {
      EarlierRowsStay(input[2..], before, s.(cell := s.cell + ['"']));
    } else if input[0] == '"' {
      EarlierRowsStay(input[1..], before, s.(quoted := !s.quoted));
    } else if input[0] == ',' && !s.quoted {
      EarlierRowsStay(input[1..], before, EndCell(s));
    } else if (input[0] == '\n' || input[0] == '\r') && !s.quoted {
      AddRowAfter(before, s.rows, s.row + [Trim(s.cell)]);
      var rest := if input[0] == '\r' && StartsWith(input[1..], '\n') then input[2..] else input[1..];
      EarlierRowsStay(rest, before, EndLine(s));
    } else {
      EarlierRowsStay(input[1..], before, s.(cell := s.cell + [input[0]]));
    }
  }

  predicate LineEnd(s: string) { s == "\n" || s == "\r\n" || s == "\r" }

  /** Text whose quotes are balanced can be followed by any line end and any text: the rows of
      the whole are the rows of the first part followed by the rows of the second. */
  lemma LinesCompose(a: string, lineEnd: string, b: string)
    requires Quotes(a) % 2 == 0 && LineEnd(lineEnd)
    ensures Parse(a + lineEnd + b) == Parse(a) + Parse(b)
  {
    var sa := Consume(a, Empty);
    QuotedIsParity(a, Empty);
    assert a + lineEnd + b == a + (lineEnd + b);
    ConsumeSplits(a, lineEnd + b, Empty);
    LineEndEnds(lineEnd, b, sa);
    assert Prepend(EndLine(sa).rows, Empty) == EndLine(sa);
    EarlierRowsStay(b, EndLine(sa).rows, Empty);
    FinishIsEndLine(sa);
  }

  lemma LineEndEnds(lineEnd: string, b: string, s: Scan)
    requires !s.quoted && LineEnd(lineEnd)
    ensures Consume(lineEnd + b, s) == Consume(b, EndLine(s))
  {
    var input := lineEnd + b;
    EndLineTwice(s);
    if lineEnd == "\r\n" {
      assert input[2..] == b;
    } else {
      assert input[1..] == b;
      if lineEnd == "\r" && StartsWith(b, '\n') {
        assert input[2..] == b[1..];
      }
    }
  }

  lemma FinishIsEndLine(s: Scan)
    ensures Finish(s) == EndLine(s).rows
  {
    if s.cell == "" && s.row == [] {
      assert s.row + [Trim(s.cell)] == [""];
    }
  }

  function ParseEach(lines: seq<string>): seq<Row> {
    if lines == [] then [] else Parse(lines[0]) + ParseEach(lines[1..])
  }

  /** A file reads as its lines one by one, whichever line end separates them. */
  lemma {:induction false} LineEndsDoNotMatter(lines: seq<string>, lineEnd: string)
    requires LineEnd(lineEnd) && forall i :: 0 <= i < |lines| ==> Quotes(lines[i]) % 2 == 0
    ensures Parse(JoinLines(lines, lineEnd)) == ParseEach(lines)
  {
    if |lines| == 1 {
      assert ParseEach(lines[1..]) == [];
    } else if |lines| > 1 {
      LinesCompose(lines[0], lineEnd, JoinLines(lines[1..], lineEnd));
      LineEndsDoNotMatter(lines[1..], lineEnd);
    }
  }

  // ---------------------------------------------------------------------------
  // Round trip
  // ---------------------------------------------------------------------------

  function TrimRow(cells: Row): Row {
    if cells == [] then [] else [Trim(cells[0])] + TrimRow(cells[1..])
  }

  /** What a row is read back as. */
  function CleanRow(cells: Row): Row { TrimRow(SanitizeRow(cells)) }

  function CleanRows(rows: seq<Row>): seq<Row> {
    if rows == [] then [] else AddRow([], CleanRow(rows[0])) + CleanRows(rows[1..])
  }

  /** A carriage return in a sanitised cell that the writer does not quote. */
  predicate Bare(safe: string) { '\r' in safe && !NeedsQuotes(safe) }

  predicate NoneBare(cells: Row) {
    forall i :: 0 <= i < |cells| ==> !Bare(cells[i])
  }

  lemma {:induction false} PlainTextIsRead(text: string, rest: string, s: Scan)
    requires !s.quoted && !NeedsQuotes(text) && '\r' !in text
    ensures Consume(text + rest, s) == Consume(rest, s.(cell := s.cell + text))
    decreases |text|
  {
    if text == "" {
      assert text + rest == rest && s.cell + text == s.cell;
    } else {
      assert (text + rest)[1..] == text[1..] + rest;
      assert text[0] in text;
      PlainTextIsRead(text[1..], rest, s.(cell := s.cell + [text[0]]));
      assert s.cell + text == s.cell + [text[0]] + text[1..];
    }
  }

  lemma {:induction false} DoubledTextIsRead(text: string, rest: string, s: Scan)
    requires s.quoted && !StartsWith(rest, '"')
    ensures Consume(Doubled(text) + "\"" + rest, s) == Consume(rest, s.(cell := s.cell + text, quoted := false))
    decreases |text|
  {
    var input := Doubled(text) + "\"" + rest;
    if text == "" {
      assert input[1..] == rest && s.cell + text == s.cell;
    } else {
      var tail := Doubled(text[1..]) + "\"" + rest;
      if text[0] == '"' {
        assert input == "\"\"" + tail;
        assert input[1..] == "\"" + tail && input[2..] == tail;
      } else {
        assert input == [text[0]] + tail;
        assert input[1..] == tail;
      }
      DoubledTextIsRead(text[1..], rest, s.(cell := s.cell + [text[0]]));
      assert s.cell + text == s.cell + [text[0]] + text[1..];
    }
  }

  lemma CommaIsRead(rest: string, s: Scan)
    requires !s.quoted
    ensures Consume("," + rest, s) == Consume(rest, EndCell(s))
  {
    assert ("," + rest)[1..] == rest;
  }

  lemma OpeningQuoteIsRead(rest: string, s: Scan)
    requires !s.quoted
    ensures Consume("\"" + rest, s) == Consume(rest, s.(quoted := true))
  {
    assert ("\"" + rest)[1..] == rest;
  }

  lemma QuotedCellIsRead(safe: string, rest: string, s: Scan)
    requires !s.quoted && s.cell == "" && !StartsWith(rest, '"')
    ensures Consume("\"" + Doubled(safe) + "\"" + rest, s) == Consume(rest, s.(cell := safe))
  {
    var input := "\"" + Doubled(safe) + "\"" + rest;
    assert input == "\"" + (Doubled(safe) + "\"" + rest);
    OpeningQuoteIsRead(Doubled(safe) + "\"" + rest, s);
    DoubledTextIsRead(safe, rest, s.(quoted := true));
    assert s.cell + safe == safe;
  }

  lemma CellIsRead(safe: string, rest: string, s: Scan)
    requires !Bare(safe) && !s.quoted && s.cell == "" && !StartsWith(rest, '"')
    ensures Consume(Quote(safe) + rest, s) == Consume(rest, s.(cell := safe))
  {
    if NeedsQuotes(safe) {
      QuotedCellIsRead(safe, rest, s);
    } else {
      PlainTextIsRead(safe, rest, s);
      assert s.cell + safe == safe;
    }
  }

  /** The reader at the end of a written row, its last cell still open. */
  function RowRead(cells: Row, s: Scan): Scan
    requires cells != []
  {
    var first := s.(cell := cells[0]);
    if |cells| == 1 then first else RowRead(cells[1..], EndCell(first))
  }

  lemma {:induction false} RowIsRead(cells: Row, s: Scan)
    requires cells != [] && NoneBare(cells) && !s.quoted && s.cell == ""
    ensures Consume(RowText(cells), s) == RowRead(cells, s)
    decreases |cells|
  {
    var first := s.(cell := cells[0]);
    if |cells| == 1 {
      CellIsRead(cells[0], "", s);
      assert Quote(cells[0]) + "" == Quote(cells[0]);
    } else {
      CellIsRead(cells[0], "," + RowText(cells[1..]), s);
      CommaIsRead(RowText(cells[1..]), first);
      RowIsRead(cells[1..], EndCell(first));
    }
  }

  lemma {:induction false} RowReadEnds(cells: Row, s: Scan)
    requires cells != [] && !s.quoted
    ensures !RowRead(cells, s).quoted
    ensures Finish(RowRead(cells, s)) == AddRow(s.rows, s.row + TrimRow(cells))
    decreases |cells|
  {
    var first := s.(cell := cells[0]);
    var head := [Trim(cells[0])];
    if |cells| == 1 {
      assert cells[1..] == [];
      assert TrimRow(cells) == head + [] == head;
      FinishIsEndLine(first);
    } else {
      RowReadEnds(cells[1..], EndCell(first));
      assert s.row + head + TrimRow(cells[1..]) == s.row + (head + TrimRow(cells[1..]));
    }
  }

  /** A written row without bare carriage returns reads as itself, trimmed. */
  lemma PlainRowIsRead(cells: Row)
    requires NoneBare(cells)
    ensures Parse(RowText(cells)) == AddRow([], TrimRow(cells))
  {
    if cells != [] {
      RowIsRead(cells, Empty);
      RowReadEnds(cells, Empty);
      assert [] + TrimRow(cells) == TrimRow(cells);
    }
  }

  // ---------------------------------------------------------------------------
  // What becomes of a cell, in plain terms
  // ---------------------------------------------------------------------------

  /** A cell that a spreadsheet would take for a formula. */
  predicate Formula(s: string) {
    s != "" && (s[0] == '=' || s[0] == '+' || s[0] == '-' || s[0] == '@')
  }

  /** What is written for a cell, and held by the reader before it trims: the cell, after an
      apostrophe if it is a formula. */
  predicate Defused(raw: string, held: string) {
    held == (if Formula(raw) then "'" + raw else raw) && !Formula(held)
  }

  lemma SanitizeDefuses(raw: string)
    ensures Defused(raw, Sanitize(raw))
  {
  }

  /** What is written for a cell: the defused cell, in quotes with its own quotes doubled exactly if it
      holds a quote, a comma or a line feed. A carriage return alone does not count. */
  lemma CellTextIs(raw: string, held: string)
    requires Defused(raw, held)
    ensures CsvCell(raw)
            == if '"' in held || ',' in held || '\n' in held then "\"" + Doubled(held) + "\"" else held
  {
    SanitizeDefuses(raw);
  }

  /** Between two cells, the reader takes a written cell in as the defused cell, whole. */
  lemma WrittenCellIsHeld(raw: string, held: string, s: Scan)
    requires Defused(raw, held) && !s.quoted && s.cell == ""
    requires '\r' in held ==> '"' in held || ',' in held || '\n' in held
    ensures Consume(CsvCell(raw), s) == s.(cell := held)
  {
    SanitizeDefuses(raw);
    CellIsRead(Sanitize(raw), "", s);
    assert CsvCell(raw) + "" == CsvCell(raw);
  }

  /** A row as it is read back: each cell trimmed, and before that defused. */
  predicate ReadBack(cells: Row, row: Row) {
    && |row| == |cells|
    && forall k :: 0 <= k < |cells| ==> row[k] == Trim(if Formula(cells[k]) then "'" + cells[k] else cells[k])
  }

  lemma {:induction false} CleanRowIsReadBack(cells: Row)
    ensures ReadBack(cells, CleanRow(cells))
  {
    if cells != [] {
      SanitizeDefuses(cells[0]);
      CleanRowIsReadBack(cells[1..]);
      assert CleanRow(cells) == [Trim(Sanitize(cells[0]))] + CleanRow(cells[1..]);
    }
  }

  /** `read` are the rows of a file, in order, as they are read back, without those that come out blank. */
  ghost predicate RowsReadBack(rows: seq<Row>, read: seq<Row>)
    decreases |rows|
  {
    if rows == [] then read == []
    else if exists row :: ReadBack(rows[0], row) && Blank(row) then RowsReadBack(rows[1..], read)
    else read != [] && ReadBack(rows[0], read[0]) && RowsReadBack(rows[1..], read[1..])
  }

  lemma ReadBackIsUnique(cells: Row, one: Row, other: Row)
    requires ReadBack(cells, one) && ReadBack(cells, other)
    ensures one == other
  {
    assert forall k :: 0 <= k < |cells| ==> one[k] == other[k];
  }

  lemma {:induction false} CleanRowsAreReadBack(rows: seq<Row>)
    ensures RowsReadBack(rows, CleanRows(rows))
  {
    if rows != [] {
      var row := CleanRow(rows[0]);
      CleanRowIsReadBack(rows[0]);
      CleanRowsAreReadBack(rows[1..]);
      if Blank(row) {
        assert CleanRows(rows) == CleanRows(rows[1..]);
      } else {
        assert CleanRows(rows) == [row] + CleanRows(rows[1..]);
        forall other | ReadBack(rows[0], other) ensures !Blank(other) {
          ReadBackIsUnique(rows[0], row, other);
        }
      }
    }
  }

  // ---------------------------------------------------------------------------
  // Quotes in written text are balanced
  // ---------------------------------------------------------------------------

  lemma {:induction false} QuotesAppend(a: string, b: string)
    ensures Quotes(a + b) == Quotes(a) + Quotes(b)
  {
    if a == "" {
      assert a + b == b;
    } else {
      assert (a + b)[1..] == a[1..] + b;
      QuotesAppend(a[1..], b);
    }
  }

  lemma {:induction false} DoubledIsEven(s: string)
    ensures Quotes(Doubled(s)) % 2 == 0
  {
    if s != "" {
      DoubledIsEven(s[1..]);
      QuotesAppend(if s[0] == '"' then "\"\"" else [s[0]], Doubled(s[1..]));
      assert "\"\""[1..] == "\"" && "\""[1..] == "";
      assert [s[0]][1..] == "";
    }
  }

  lemma {:induction false} NoQuotesMeansNone(s: string)
    requires '"' !in s
    ensures Quotes(s) == 0
  {
    if s != "" {
      assert s[0] in s;
      NoQuotesMeansNone(s[1..]);
    }
  }

  lemma QuoteIsEven(safe: string)
    ensures Quotes(Quote(safe)) % 2 == 0
  {
    if NeedsQuotes(safe) {
      DoubledIsEven(safe);
      QuotesAppend("\"", Doubled(safe));
      QuotesAppend("\"" + Doubled(safe), "\"");
      assert "\""[1..] == "";
      assert Quotes("\"") == 1;
    } else {
      NoQuotesMeansNone(safe);
    }
  }

  lemma {:induction false} RowTextIsEven(cells: Row)
    ensures Quotes(RowText(cells)) % 2 == 0
  {
    if cells != [] {
      QuoteIsEven(cells[0]);
      if |cells| > 1 {
        RowTextIsEven(cells[1..]);
          QuotesAppend(",", RowText(cells[1..]));
        QuotesAppend(Quote(cells[0]), "," + RowText(cells[1..]));
        assert ","[1..] == "";
        assert Quotes(",") == 0;
      }
    }
  }

  /** A written file reads as its rows one by one. */
  lemma FileReadsRowByRow(rows: seq<Row>)
    ensures Parse(JoinLines(CsvLines(rows), "\n")) == ParseEach(CsvLines(rows))
  {
    CsvLinesAre(rows);
    forall i | 0 <= i < |rows| ensures Quotes(CsvLines(rows)[i]) % 2 == 0 {
      RowTextIsEven(SanitizeRow(rows[i]));
    }
    LineEndsDoNotMatter(CsvLines(rows), "\n");
  }

  lemma {:induction false} CsvLinesAre(rows: seq<Row>)
    ensures |CsvLines(rows)| == |rows|
    ensures forall i :: 0 <= i < |rows| ==> CsvLines(rows)[i] == CsvRow(rows[i])
  {
    if rows != [] {
      CsvLinesAre(rows[1..]);
    }
  }

  lemma {:induction false} PlainRowsAreRead(rows: seq<Row>)
    requires forall i :: 0 <= i < |rows| ==> NoneBare(SanitizeRow(rows[i]))
    ensures ParseEach(CsvLines(rows)) == CleanRows(rows)
  {
    if rows != [] {
      PlainRowIsRead(SanitizeRow(rows[0]));
      PlainRowsAreRead(rows[1..]);
      assert CsvLines(rows)[1..] == CsvLines(rows[1..]);
    }
  }

  /** Reading an export gives back its rows, each cell sanitised and trimmed and blank rows
      dropped, whenever no unquoted cell holds a carriage return. */
  lemma RoundTrip(rows: seq<Row>)
    requires forall i :: 0 <= i < |rows| ==> NoneBare(SanitizeRow(rows[i]))
    ensures Parse(JoinLines(CsvLines(rows), "\n")) == CleanRows(rows)
    ensures RowsReadBack(rows, Parse(JoinLines(CsvLines(rows), "\n")))
  {
    FileReadsRowByRow(rows);
    PlainRowsAreRead(rows);
    CleanRowsAreReadBack(rows);
  }

  lemma {:induction false} TrimStartIs(s: string) returns (a: nat)
    ensures a <= |s| && TrimStart(s) == s[a..] && forall i :: 0 <= i < a ==> IsSpace(s[i])
    ensures a < |s| ==> !IsSpace(s[a])
  {
    if s != "" && IsSpace(s[0]) {
      var rest := TrimStartIs(s[1..]);
      a := rest + 1;
    } else {
      a := 0;
    }
  }

  lemma {:induction false} TrimEndIs(s: string) returns (b: nat)
    ensures b <= |s| && TrimEnd(s) == s[..b] && forall i :: b <= i < |s| ==> IsSpace(s[i])
    ensures b > 0 ==> !IsSpace(s[b - 1])
  {
    if s != "" && IsSpace(s[|s| - 1]) {
      b := TrimEndIs(s[..|s| - 1]);
    } else {
      b := |s|;
    }
  }

  /** What trimming takes away: space at both ends and nothing else. */
  lemma TrimIs(s: string) returns (a: nat, b: nat)
    ensures a <= b <= |s| && Trim(s) == s[a..b]
    ensures forall i :: 0 <= i < a || b <= i < |s| ==> IsSpace(s[i])
    ensures a < b ==> !IsSpace(s[a]) && !IsSpace(s[b - 1])
  {
    a := TrimStartIs(s);
    var kept := TrimEndIs(s[a..]);
    b := a + kept;
    forall i | b <= i < |s| ensures IsSpace(s[i]) {
      assert s[a..][i - a] == s[i];
    }
    assert kept > 0 ==> s[a..][kept - 1] == s[b - 1];
  }

  /** What a defused cell is read back as looks like a formula if and only if the cell was not taken
      for one because of space before it. */
  lemma FormulaComesBackExactly(raw: string)
    ensures Formula(Trim(if Formula(raw) then "'" + raw else raw)) <==> !Formula(raw) && Formula(Trim(raw))
  {
    if Formula(raw) {
      var held := "'" + raw;
      var a, b := TrimIs(held);
      assert !IsSpace(held[0]) && !IsSpace(held[1]);
      assert a == 0;
    }
  }

  /** Blank, tab and line ends are space; letters, digits and quotes are not. */
  lemma SpaceIs(c: char)
    ensures c == ' ' || c == '\t' || c == '\n' || c == '\r' ==> IsSpace(c)
    ensures '!' <= c <= '~' ==> !IsSpace(c)
  {
  }
}
