/**
 Carriage returns: the CSV writer does not quote a cell on account of one, and the reader ends
 a line at one. Which files survive all the same, exactly.
 */
module CsvReturns {
  import opened Csv

  // ---------------------------------------------------------------------------
  // Trimming
  // ---------------------------------------------------------------------------

  predicate AllSpace(s: string) {
    forall i :: 0 <= i < |s| ==> IsSpace(s[i])
  }

  lemma {:induction false} TrimStartSkips(a: string, b: string)
    requires AllSpace(a)
    ensures TrimStart(a + b) == TrimStart(b)
  {
    if a == "" {
      assert a + b == b;
    } else {
      assert (a + b)[1..] == a[1..] + b && (a + b)[0] == a[0];
      TrimStartSkips(a[1..], b);
    }
  }

  lemma {:induction false} TrimEndSkips(a: string, b: string)
    requires AllSpace(b)
    ensures TrimEnd(a + b) == TrimEnd(a)
  {
    if b == "" {
      assert a + b == a;
    } else {
      var front := b[..|b| - 1];
      assert (a + b)[..|a + b| - 1] == a + front && (a + b)[|a + b| - 1] == b[|b| - 1];
      TrimEndSkips(a, front);
    }
  }

  lemma {:induction false} TrimStartKeeps(a: string, b: string)
    requires !AllSpace(a)
    ensures TrimStart(a + b) == TrimStart(a) + b
  {
    assert (a + b)[0] == a[0];
    if IsSpace(a[0]) {
      assert !AllSpace(a[1..]) by {
        var i :| 0 <= i < |a| && !IsSpace(a[i]);
        assert a[1..][i - 1] == a[i];
      }
      assert (a + b)[1..] == a[1..] + b;
      TrimStartKeeps(a[1..], b);
    }
  }

  lemma TrimOfSpace(s: string)
    requires AllSpace(s)
    ensures Trim(s) == ""
  {
    TrimStartSkips(s, "");
    assert s + "" == s;
  }

  lemma SkipLeading(a: string, b: string)
    requires AllSpace(a)
    ensures Trim(a + b) == Trim(b)
  {
    TrimStartSkips(a, b);
  }

  lemma SkipTrailing(a: string, b: string)
    requires AllSpace(b)
    ensures Trim(a + b) == Trim(a)
  {
    if AllSpace(a) {
      assert AllSpace(a + b);
      TrimOfSpace(a + b);
      TrimOfSpace(a);
    } else {
      TrimStartKeeps(a, b);
      TrimEndSkips(TrimStart(a), b);
    }
  }

  lemma {:induction false} TrimStartStopsAt(s: string)
    requires !AllSpace(s)
    ensures TrimStart(s) != "" && !IsSpace(TrimStart(s)[0])
  {
    if IsSpace(s[0]) {
      assert !AllSpace(s[1..]) by {
        var i :| 0 <= i < |s| && !IsSpace(s[i]);
        assert s[1..][i - 1] == s[i];
      }
      TrimStartStopsAt(s[1..]);
    }
  }

  lemma {:induction false} TrimEndKeepsHead(s: string)
    requires s != "" && !IsSpace(s[0])
    ensures TrimEnd(s) != ""
  {
    if IsSpace(s[|s| - 1]) {
      TrimEndKeepsHead(s[..|s| - 1]);
    }
  }

  lemma TrimIsEmpty(s: string)
    ensures Trim(s) == "" <==> AllSpace(s)
  {
    if AllSpace(s) {
      TrimOfSpace(s);
    } else {
      TrimStartStopsAt(s);
      TrimEndKeepsHead(TrimStart(s));
    }
  }

  predicate BlankRow(cells: Row) {
    forall i :: 0 <= i < |cells| ==> AllSpace(cells[i])
  }

  lemma {:induction false} TrimRowIs(cells: Row)
    ensures |TrimRow(cells)| == |cells|
    ensures forall i :: 0 <= i < |cells| ==> TrimRow(cells)[i] == Trim(cells[i])
  {
    if cells != [] {
      TrimRowIs(cells[1..]);
    }
  }

  lemma BlankRowIs(cells: Row)
    ensures Blank(TrimRow(cells)) <==> BlankRow(cells)
  {
    TrimRowIs(cells);
    forall i | 0 <= i < |cells| ensures TrimRow(cells)[i] == "" <==> AllSpace(cells[i]) {
      TrimIsEmpty(cells[i]);
    }
  }

  // ---------------------------------------------------------------------------
  // Breaking a row at its first bare return
  // ---------------------------------------------------------------------------

  /** Cell `k`, the first with a bare return, broken there into `u` and `v`. */
  predicate Break(cells: Row, k: nat, u: string, v: string) {
    && k < |cells| && cells[k] == u + "\r" + v && '\r' !in u
    && Bare(cells[k]) && NoneBare(cells[..k])
  }

  lemma FirstReturn(s: string) returns (u: string, v: string)
    requires '\r' in s
    ensures s == u + "\r" + v && '\r' !in u
  {
    var i := 0;
    while s[i] != '\r'
      invariant 0 <= i < |s| && '\r' in s[i..] && '\r' !in s[..i]
      decreases |s| - i
    {
      assert s[i..] == [s[i]] + s[i + 1..];
      assert s[..i + 1] == s[..i] + [s[i]];
      i := i + 1;
    }
    u, v := s[..i], s[i + 1..];
  }

  lemma FirstBreak(cells: Row) returns (k: nat, u: string, v: string)
    requires !NoneBare(cells)
    ensures Break(cells, k, u, v)
  {
    k := 0;
    while !Bare(cells[k])
      invariant k < |cells| && NoneBare(cells[..k]) && exists i :: k <= i < |cells| && Bare(cells[i])
      decreases |cells| - k
    {
      k := k + 1;
    }
    u, v := FirstReturn(cells[k]);
  }

  function Before(cells: Row, k: nat, u: string): Row
    requires k < |cells|
  {
    cells[..k] + [u]
  }

  function After(cells: Row, k: nat, v: string): Row
    requires k < |cells|
  {
    [v] + cells[k + 1..]
  }

  lemma PartsOfPlain(u: string, v: string)
    requires !NeedsQuotes(u + "\r" + v)
    ensures !NeedsQuotes(u) && !NeedsQuotes(v)
  {
    var s := u + "\r" + v;
    forall c | c in u ensures c in s {}
    forall c | c in v ensures c in s {}
  }

  lemma {:induction false} TextBreaks(cells: Row, k: nat, u: string, v: string)
    requires Break(cells, k, u, v)
    ensures RowText(cells) == RowText(Before(cells, k, u)) + "\r" + RowText(After(cells, k, v))
    decreases k
  {
    if k > 0 {
      var tail := cells[1..];
      assert tail[..k - 1] == cells[..k][1..] && After(tail, k - 1, v) == After(cells, k, v);
      TextBreaks(tail, k - 1, u, v);
      assert Before(cells, k, u)[1..] == Before(tail, k - 1, u);
      PrependText(Quote(cells[0]), RowText(Before(tail, k - 1, u)), RowText(After(cells, k, v)));
    } else {
      PartsOfPlain(u, v);
      assert Before(cells, k, u) == [u] && After(cells, k, v)[1..] == cells[1..];
      AppendText(u, v, "," + RowText(cells[1..]));
    }
  }

  lemma PrependText(head: string, a: string, b: string)
    ensures head + ("," + (a + "\r" + b)) == head + ("," + a) + "\r" + b
  {
  }

  lemma AppendText(u: string, v: string, tail: string)
    ensures u + "\r" + v + tail == u + "\r" + (v + tail)
  {
  }

  /** What is read is the part before the return, as one row, and then whatever the rest reads as. */
  lemma RowBreaks(cells: Row, k: nat, u: string, v: string)
    requires Break(cells, k, u, v)
    ensures Parse(RowText(cells)) == AddRow([], TrimRow(Before(cells, k, u))) + Parse(RowText(After(cells, k, v)))
    ensures |RowText(After(cells, k, v))| < |RowText(cells)|
  {
    TextBreaks(cells, k, u, v);
    RowTextIsEven(Before(cells, k, u));
    LinesCompose(RowText(Before(cells, k, u)), "\r", RowText(After(cells, k, v)));
    PlainRowIsRead(Before(cells, k, u));
  }

  lemma BlankBreaks(cells: Row, k: nat, u: string, v: string)
    requires Break(cells, k, u, v)
    ensures BlankRow(cells) <==> BlankRow(Before(cells, k, u)) && BlankRow(After(cells, k, v))
  {
    CellBreaks(u, v);
    var first, second := Before(cells, k, u), After(cells, k, v);
    assert first[k] == u && second[0] == v;
    assert forall i :: 0 <= i < k ==> first[i] == cells[i];
    assert forall i :: k < i < |cells| ==> cells[i] == second[i - k];
    assert forall i :: 0 < i < |second| ==> second[i] == cells[i + k];
  }

  lemma CellBreaks(u: string, v: string)
    ensures AllSpace(u + "\r" + v) <==> AllSpace(u) && AllSpace(v)
  {
    var s := u + "\r" + v;
    assert forall i :: 0 <= i < |u| ==> s[i] == u[i];
    assert forall i :: 0 <= i < |v| ==> s[|u| + 1 + i] == v[i];
  }

  /** What is read up to the break: nothing, or one row that ends there. */
  lemma FirstPart(cells: Row, k: nat, u: string) returns (first: seq<Row>)
    requires k < |cells|
    ensures first == AddRow([], TrimRow(Before(cells, k, u)))
    ensures first == [] <==> BlankRow(Before(cells, k, u))
    ensures first != [] ==> |first| == 1 && |first[0]| == k + 1
  {
    first := AddRow([], TrimRow(Before(cells, k, u)));
    TrimRowIs(Before(cells, k, u));
    BlankRowIs(Before(cells, k, u));
  }

  /** A written row reads as nothing exactly when it is blank, and never as a wider row. */
  lemma {:induction false} RowsRead(cells: Row)
    requires cells != []
    ensures Parse(RowText(cells)) == [] <==> BlankRow(cells)
    ensures NoWider(Parse(RowText(cells)), |cells|)
    decreases |RowText(cells)|
  {
    if NoneBare(cells) {
      TrimRowIs(cells);
      BlankRowIs(cells);
      PlainRowIsRead(cells);
    } else {
      var k, u, v := FirstBreak(cells);
      RowBreaks(cells, k, u, v);
      BlankBreaks(cells, k, u, v);
      RowsRead(After(cells, k, v));
      var first := FirstPart(cells, k, u);
      BothNoWider(first, Parse(RowText(After(cells, k, v))), |cells|);
    }
  }

  predicate NoWider(rows: seq<Row>, width: nat) {
    forall i :: 0 <= i < |rows| ==> |rows[i]| <= width
  }

  lemma BothNoWider(first: seq<Row>, second: seq<Row>, width: nat)
    requires NoWider(first, width) && NoWider(second, width)
    ensures NoWider(first + second, width)
    ensures first + second == [] <==> first == [] && second == []
  {
    assert |first + second| == |first| + |second|;
  }

  // ---------------------------------------------------------------------------
  // The exact condition
  // ---------------------------------------------------------------------------

  /** The return at position `p` of cell `k` has only space before it in the row, or after it. */
  predicate AtTheEdge(cells: Row, k: nat, p: nat)
    requires k < |cells| && p < |cells[k]|
  {
    || (k == 0 && AllSpace(cells[0][..p]))
    || (k == |cells| - 1 && AllSpace(cells[k][p + 1..]))
  }

  /** Every bare return lies in the leading space of the first cell or the trailing space of the last. */
  predicate Harmless(cells: Row) {
    forall k: nat, p: nat :: k < |cells| && p < |cells[k]| && Bare(cells[k]) && cells[k][p] == '\r' ==>
      AtTheEdge(cells, k, p)
  }

  /** The characters of a broken cell. */
  lemma BrokenCell(s: string, u: string, v: string)
    requires s == u + "\r" + v
    ensures s[|u|] == '\r' && s[..|u|] == u && s[|u| + 1..] == v
    ensures forall p :: 0 <= p < |u| ==> s[p] == u[p]
    ensures forall p :: 0 <= p < |v| ==> s[|u| + 1 + p] == v[p]
  {
  }

  /** Moving a position past a leading break changes nothing about its edges. */
  lemma EdgeAfterBreak(cells: Row, u: string, v: string, p: nat)
    requires Break(cells, 0, u, v) && AllSpace(u) && p < |v|
    ensures |u| + 1 + p < |cells[0]|
    ensures AtTheEdge(After(cells, 0, v), 0, p) <==> AtTheEdge(cells, 0, |u| + 1 + p)
  {
    assert cells[0][..|u| + 1 + p] == u + "\r" + v[..p];
    CellBreaks(u, v[..p]);
    assert cells[0][|u| + 1 + p + 1..] == v[p + 1..];
  }

  lemma LeadingKeepsHarmless(cells: Row, u: string, v: string)
    requires Break(cells, 0, u, v) && AllSpace(u) && Harmless(cells)
    ensures Harmless(After(cells, 0, v))
  {
    var rest := After(cells, 0, v);
    forall k: nat, p: nat | k < |rest| && p < |rest[k]| && Bare(rest[k]) && rest[k][p] == '\r'
      ensures AtTheEdge(rest, k, p)
    {
      if k > 0 {
        assert cells[k] == rest[k];
        assert AtTheEdge(cells, k, p);
      } else {
        assert rest[0] == v;
        BrokenCell(cells[0], u, v);
        EdgeAfterBreak(cells, u, v, p);
        assert AtTheEdge(cells, 0, |u| + 1 + p);
      }
    }
  }

  lemma LeadingAddsHarmless(cells: Row, u: string, v: string)
    requires Break(cells, 0, u, v) && AllSpace(u) && Harmless(After(cells, 0, v))
    ensures Harmless(cells)
  {
    forall k: nat, p: nat | k < |cells| && p < |cells[k]| && Bare(cells[k]) && cells[k][p] == '\r'
      ensures AtTheEdge(cells, k, p)
    {
      if k > 0 {
        assert cells[k] == After(cells, 0, v)[k];
        assert AtTheEdge(After(cells, 0, v), k, p);
      } else {
        FirstCellEdge(cells, u, v, p);
      }
    }
  }

  lemma FirstCellEdge(cells: Row, u: string, v: string, p: nat)
    requires Break(cells, 0, u, v) && AllSpace(u) && Harmless(After(cells, 0, v))
    requires p < |cells[0]| && cells[0][p] == '\r'
    ensures AtTheEdge(cells, 0, p)
  {
    BrokenCell(cells[0], u, v);
    if p > |u| {
      LaterReturn(cells, u, v, p - |u| - 1);
    }
  }

  lemma LaterReturn(cells: Row, u: string, v: string, q: nat)
    requires Break(cells, 0, u, v) && AllSpace(u) && Harmless(After(cells, 0, v)) && q < |v| && v[q] == '\r'
    ensures |u| + 1 + q < |cells[0]| && AtTheEdge(cells, 0, |u| + 1 + q)
  {
    PartsOfPlain(u, v);
    EdgeAfterBreak(cells, u, v, q);
    var rest := After(cells, 0, v);
    assert rest[0] == v && Bare(rest[0]);
    assert AtTheEdge(rest, 0, q);
  }

  /** Dropping a leading blank part keeps the trimmed row. */
  lemma LeadingReturn(cells: Row, u: string, v: string)
    requires Break(cells, 0, u, v) && AllSpace(u)
    ensures TrimRow(After(cells, 0, v)) == TrimRow(cells)
    ensures Harmless(After(cells, 0, v)) <==> Harmless(cells)
  {
    CellBreaks(u, "");
    assert u + "\r" + "" == u + "\r";
    SkipLeading(u + "\r", v);
    if Harmless(cells) {
      LeadingKeepsHarmless(cells, u, v);
    }
    if Harmless(After(cells, 0, v)) {
      LeadingAddsHarmless(cells, u, v);
    }
  }

  lemma TrailingIsHarmless(cells: Row, k: nat, u: string, v: string)
    requires Break(cells, k, u, v) && k == |cells| - 1 && AllSpace(v)
    ensures Harmless(cells)
  {
    forall j: nat, p: nat | j < |cells| && p < |cells[j]| && Bare(cells[j]) && cells[j][p] == '\r'
      ensures AtTheEdge(cells, j, p)
    {
      BareFrom(cells, k, u, v, j);
      TailIsSpace(cells[k], u, v, p);
    }
  }

  /** No cell before the break is bare. */
  lemma BareFrom(cells: Row, k: nat, u: string, v: string, j: nat)
    requires Break(cells, k, u, v) && j < |cells| && Bare(cells[j])
    ensures j >= k
  {
  }

  lemma TailIsSpace(s: string, u: string, v: string, p: nat)
    requires s == u + "\r" + v && '\r' !in u && AllSpace(v) && p < |s| && s[p] == '\r'
    ensures AllSpace(s[p + 1..])
  {
    BrokenCell(s, u, v);
    assert s[p + 1..] == v[p - |u|..];
  }

  lemma {:induction false} TrimRowAppend(cells: Row, last: string)
    ensures TrimRow(cells + [last]) == TrimRow(cells) + [Trim(last)]
  {
    if cells == [] {
      assert cells + [last] == [last] && [last][1..] == [];
    } else {
      assert (cells + [last])[1..] == cells[1..] + [last];
      TrimRowAppend(cells[1..], last);
    }
  }

  lemma TrailingSpace(u: string, v: string)
    requires AllSpace(v)
    ensures Trim(u + "\r" + v) == Trim(u)
  {
    CellBreaks("", v);
    assert "" + "\r" + v == "\r" + v && u + "\r" + v == u + ("\r" + v);
    SkipTrailing(u, "\r" + v);
  }

  lemma SwapLast(front: Row, a: string, b: string)
    requires Trim(a) == Trim(b)
    ensures TrimRow(front + [a]) == TrimRow(front + [b])
  {
    TrimRowAppend(front, a);
    TrimRowAppend(front, b);
  }

  lemma TrailingReturn(cells: Row, k: nat, u: string, v: string)
    requires k == |cells| - 1 && cells[k] == u + "\r" + v && AllSpace(v)
    ensures TrimRow(Before(cells, k, u)) == TrimRow(cells)
  {
    TrailingSpace(u, v);
    SwapLast(cells[..k], u, cells[k]);
    LastCell(cells);
  }

  lemma LastCell(cells: Row)
    requires cells != []
    ensures cells[..|cells| - 1] + [cells[|cells| - 1]] == cells
  {
  }

  /** A whole row can come out of the two parts only if one of them reads as nothing. */
  lemma OneOfTwo(first: seq<Row>, second: seq<Row>, row: Row, k: nat)
    requires k < |row| && first + second == [row] && NoWider(second, |row| - k)
    requires first != [] ==> |first| == 1 && |first[0]| == k + 1
    ensures (first == [] && k == 0) || (second == [] && k + 1 == |row|)
  {
    assert |first| + |second| == 1;
    if first == [] {
      assert second[0] == (first + second)[0];
    } else {
      assert first[0] == (first + second)[0];
    }
  }

  /** A return anywhere else breaks the row: what is read is not the row. */
  lemma InnerReturn(cells: Row, k: nat, u: string, v: string)
    requires Break(cells, k, u, v)
    requires !(k == 0 && AllSpace(u)) && !(k == |cells| - 1 && AllSpace(v))
    ensures Parse(RowText(cells)) != [TrimRow(cells)]
  {
    RowBreaks(cells, k, u, v);
    RowsRead(After(cells, k, v));
    TrimRowIs(cells);
    var first := FirstPart(cells, k, u);
    var second := Parse(RowText(After(cells, k, v)));
    BrokenEnds(cells, k, u, v);
    if first + second == [TrimRow(cells)] {
      OneOfTwo(first, second, TrimRow(cells), k);
      assert false;
    }
  }

  lemma BrokenEnds(cells: Row, k: nat, u: string, v: string)
    requires k < |cells|
    ensures BlankRow(Before(cells, k, u)) ==> AllSpace(u)
    ensures BlankRow(After(cells, k, v)) ==> AllSpace(v)
    ensures k == |cells| - 1 && AllSpace(v) ==> BlankRow(After(cells, k, v))
  {
    assert Before(cells, k, u)[k] == u && After(cells, k, v)[0] == v;
  }

  lemma InnerIsHarmful(cells: Row, k: nat, u: string, v: string)
    requires Break(cells, k, u, v)
    requires !(k == 0 && AllSpace(u)) && !(k == |cells| - 1 && AllSpace(v))
    ensures !Harmless(cells)
  {
    BrokenCell(cells[k], u, v);
    assert !AtTheEdge(cells, k, |u|);
  }

  /** A row that is not blank is read back if and only if all its bare returns are at the edge. */
  lemma {:induction false} RowSurvivesExactly(cells: Row)
    requires !BlankRow(cells)
    ensures Parse(RowText(cells)) == [TrimRow(cells)] <==> Harmless(cells)
    decreases |RowText(cells)|
  {
    BlankRowIs(cells);
    if NoneBare(cells) {
      PlainRowIsRead(cells);
    } else {
      var k, u, v := FirstBreak(cells);
      if k == 0 && AllSpace(u) {
        RowBreaks(cells, k, u, v);
        BlankBreaks(cells, k, u, v);
        BlankRowIs(Before(cells, k, u));
        LeadingReturn(cells, u, v);
        RowSurvivesExactly(After(cells, k, v));
      } else if k == |cells| - 1 && AllSpace(v) {
        RowBreaks(cells, k, u, v);
        TrailingReturn(cells, k, u, v);
        BrokenEnds(cells, k, u, v);
        TrailingIsHarmless(cells, k, u, v);
        RowsRead(After(cells, k, v));
      } else {
        InnerReturn(cells, k, u, v);
        InnerIsHarmful(cells, k, u, v);
      }
    }
  }

  // ---------------------------------------------------------------------------
  // Whole files
  // ---------------------------------------------------------------------------

  predicate Survives(row: Row) { BlankRow(SanitizeRow(row)) || Harmless(SanitizeRow(row)) }

  /** A written row reads as at least the row it should, and as just that exactly when it survives. */
  lemma RowReads(row: Row)
    ensures |Parse(CsvRow(row))| >= |AddRow([], CleanRow(row))|
    ensures Parse(CsvRow(row)) == AddRow([], CleanRow(row)) <==> Survives(row)
    ensures |AddRow([], CleanRow(row))| == 0 ==> Parse(CsvRow(row)) == []
  {
    var cells := SanitizeRow(row);
    BlankRowIs(cells);
    if cells == [] {
      PlainRowIsRead(cells);
    } else {
      RowsRead(cells);
      if !BlankRow(cells) {
        RowSurvivesExactly(cells);
      }
    }
  }

  lemma {:induction false} FileReadsEnough(rows: seq<Row>)
    ensures |ParseEach(CsvLines(rows))| >= |CleanRows(rows)|
  {
    if rows != [] {
      RowReads(rows[0]);
      FileReadsEnough(rows[1..]);
      assert CsvLines(rows)[1..] == CsvLines(rows[1..]);
    }
  }

  lemma SplitEqual<T>(a: seq<T>, b: seq<T>, c: seq<T>, d: seq<T>)
    requires a + b == c + d && |a| >= |c| && |b| >= |d|
    ensures a == c && b == d
  {
    assert |a + b| == |a| + |b| && |c + d| == |c| + |d|;
    assert a == (a + b)[..|a|] && c == (c + d)[..|c|];
    assert b == (a + b)[|a|..] && d == (c + d)[|c|..];
  }

  lemma {:induction false} RowsSurviveExactly(rows: seq<Row>)
    ensures ParseEach(CsvLines(rows)) == CleanRows(rows) <==> forall i :: 0 <= i < |rows| ==> Survives(rows[i])
  {
    if rows != [] {
      var tail := rows[1..];
      assert CsvLines(rows)[1..] == CsvLines(tail);
      RowReads(rows[0]);
      FileReadsEnough(tail);
      RowsSurviveExactly(tail);
      assert forall i :: 1 <= i < |rows| ==> rows[i] == tail[i - 1];
      assert forall i :: 0 <= i < |tail| ==> tail[i] == rows[i + 1];
      if ParseEach(CsvLines(rows)) == CleanRows(rows) {
        SplitEqual(Parse(CsvRow(rows[0])), ParseEach(CsvLines(tail)), AddRow([], CleanRow(rows[0])), CleanRows(tail));
      }
    }
  }

  /** The round trip, for all files: what is read is what was written, sanitised, trimmed and
      without blank rows, if and only if in every row that is not blank each bare return lies in
      the leading space of the first cell or the trailing space of the last. */
  lemma FileSurvivesExactly(rows: seq<Row>)
    ensures Parse(JoinLines(CsvLines(rows), "\n")) == CleanRows(rows) <==>
              forall i :: 0 <= i < |rows| ==> Survives(rows[i])
    ensures (forall i :: 0 <= i < |rows| ==> Survives(rows[i])) ==>
              RowsReadBack(rows, Parse(JoinLines(CsvLines(rows), "\n")))
  {
    CleanRowsAreReadBack(rows);
    FileReadsRowByRow(rows);
    RowsSurviveExactly(rows);
  }

  /** In particular, between two other cells without a bare return none is tolerated. */
  lemma CellSurvivesExactly(left: string, raw: string, right: string)
    requires !Bare(Sanitize(left)) && !Bare(Sanitize(right)) && !BlankRow(SanitizeRow([left, raw, right]))
    ensures Parse(CsvRow([left, raw, right])) == [CleanRow([left, raw, right])] <==> !Bare(Sanitize(raw))
  {
    var cells := SanitizeRow([left, raw, right]);
    ThreeCells(left, raw, right);
    RowSurvivesExactly(cells);
    if Bare(cells[1]) {
      var p :| 0 <= p < |cells[1]| && cells[1][p] == '\r';
      assert !AtTheEdge(cells, 1, p);
    }
  }

  /** A row that does not come back: its second cell holds a carriage return between two letters. */
  lemma ReturnBreaksRow()
    ensures CsvRow(["x", "a\rb"]) == "x,a\rb"
    ensures Parse("x,a\rb") != [["x", "a\rb"]]
  {
    var raw := ["x", "a\rb"];
    var cells := SanitizeRow(raw);
    assert raw[1..] == ["a\rb"] && ["a\rb"][1..] == [];
    assert SanitizeRow(["a\rb"]) == ["a\rb"];
    assert cells == raw;
    assert RowText(["a\rb"]) == "a\rb";
    assert RowText(raw) == "x" + ("," + "a\rb") == "x,a\rb";
    assert raw[1][1] == '\r' && !AllSpace(raw[1][2..]) by { assert raw[1][2..][0] == 'b'; }
    assert !AtTheEdge(raw, 1, 1);
    assert !BlankRow(raw) by { assert !IsSpace(raw[0][0]); }
    RowSurvivesExactly(raw);
    LettersStay();
    assert TrimRow(["a\rb"]) == [Trim("a\rb")];
    assert TrimRow(raw) == [Trim("x")] + TrimRow(["a\rb"]);
  }

  lemma LettersStay()
    ensures Trim("x") == "x" && Trim("a\rb") == "a\rb"
  {
    var x, cell := "x", "a\rb";
    assert !IsSpace(x[0]) && !IsSpace(cell[0]) && !IsSpace(cell[2]);
    assert TrimStart(x) == x && TrimEnd(x) == x;
    assert TrimStart(cell) == cell && TrimEnd(cell) == cell;
  }

  lemma ThreeCells(a: string, b: string, c: string)
    ensures SanitizeRow([a, b, c]) == [Sanitize(a), Sanitize(b), Sanitize(c)]
  {
    assert [a, b, c][1..] == [b, c] && [b, c][1..] == [c] && [c][1..] == [];
    assert SanitizeRow([c]) == [Sanitize(c)];
    assert SanitizeRow([b, c]) == [Sanitize(b), Sanitize(c)];
  }
}
