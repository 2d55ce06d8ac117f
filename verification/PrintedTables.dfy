/** A whole table that `render_add` prints, read by the block parser: one table block, with every cell as it was. */
module PrintedTables {
  import opened Results
  import opened MarkdownText
  import opened MarkdownChunks
  import opened MarkdownGrammar
  import opened TablePrinting

  function Repeated<T>(x: T, n: nat): (r: seq<T>)
    ensures |r| == n && forall k :: 0 <= k < n ==> r[k] == x
  {
    if n == 0 then [] else [x] + Repeated(x, n - 1)
  }

  function Dashes(): string {
    ['-', '-', '-']
  }

  function PrintedDelimiter(n: nat): string {
    ['|'] + Joined("|", Repeated(Dashes(), n)) + ['|']
  }

  // ---- the shape of printed rows

  predicate RowShaped(f: Shape) {
    && !f.blank && f.indent == 0 && f.fence.None? && f.heading.None? && !f.rule && !f.quote && f.item.None?
    && !f.reference && !f.html && f.pipe
  }

  /** A line that begins with a pipe is no construct but a table row. */
  lemma {:induction false} PipeFirst(s: string)
    requires s != [] && s[0] == '|'
    ensures RowShaped(Look(s))
  {
    PipeIsNoBlock(s);
    PipeIsNoOther(s);
  }

  lemma {:induction false} PipeIsNoBlock(s: string)
    requires s != [] && s[0] == '|'
    ensures !Blank(s) && Indent(s) == 0 && Fence(s).None? && HeadingOf(s).None? && !IsRule(s)
  {
    assert Body(s) == Some(s);
    RunIs(s, c => c == '#', 0);
  }

  lemma {:induction false} PipeIsNoOther(s: string)
    requires s != [] && s[0] == '|'
    ensures !IsQuote(s) && ListItem(s).None? && !IsReference(s) && !IsHtml(s)
  {
    assert Body(s) == Some(s);
    RunIs(s, IsDigit, 0);
  }

  // ---- the delimiter row

  lemma {:induction false} DashesCell(rest: string)
    requires rest != [] && rest[0] == '|'
    ensures DelimiterCell(Dashes() + rest) == Some(rest)
  {
    var s := Dashes() + rest;
    RunIs(s, IsTabOrSpace, 0);
    RunIs(s, c => c == '-', 3);
    assert s[3..] == rest;
    RunIs(rest, IsTabOrSpace, 0);
  }

  lemma {:induction false} DashesAccepted(more: string)
    requires more == [] || DelimiterCells(more)
    ensures DelimiterCells(Dashes() + (['|'] + more))
  {
    DashesCell(['|'] + more);
    assert (['|'] + more)[1..] == more;
  }

  lemma {:induction false} DashesThenMore(more: string)
    requires DelimiterCells(more + ['|'])
    ensures DelimiterCells(Dashes() + (['|'] + more) + ['|'])
  {
    DashesAccepted(more + ['|']);
    assert Dashes() + (['|'] + more) + ['|'] == Dashes() + (['|'] + (more + ['|']));
  }

  lemma {:induction false} DelimiterAccepted(n: nat)
    requires n > 0
    ensures DelimiterCells(Joined("|", Repeated(Dashes(), n)) + ['|'])
  {
    JoinedDashes(n);
    if n == 1 {
      DashesAccepted([]);
      assert Dashes() + ['|'] == Dashes() + (['|'] + []);
    } else {
      DelimiterAccepted(n - 1);
      DashesThenMore(Joined("|", Repeated(Dashes(), n - 1)));
    }
  }

  lemma {:induction false} JoinedDashes(n: nat)
    requires n > 0
    ensures Joined("|", Repeated(Dashes(), n))
         == if n == 1 then Dashes() else Dashes() + (['|'] + Joined("|", Repeated(Dashes(), n - 1)))
  {
    assert n > 1 ==> Repeated(Dashes(), n)[1..] == Repeated(Dashes(), n - 1);
  }

  lemma {:induction false} DelimiterIsRow(n: nat)
    requires n > 0
    ensures IsDelimiterRow(PrintedDelimiter(n))
  {
    var s := PrintedDelimiter(n);
    RunIs(s, c => c == ' ', 0);
    assert s[0..] == s;
    assert s[1..] == Joined("|", Repeated(Dashes(), n)) + ['|'];
    DelimiterAccepted(n);
  }

  lemma {:induction false} ReadsDashes(rest: string)
    ensures CellsOf(Dashes() + rest, []) == CellsOf(rest, Dashes())
  {
    var s, none: string := Dashes() + rest, [];
    assert s[0] == '-' && s[1] == '-' && s[2] == '-' && s[1..][1..][1..] == rest;
    assert none + ['-'] == ['-'] && ['-'] + ['-'] + ['-'] == Dashes();
    assert CellsOf(s, none) == CellsOf(s[1..], ['-']);
    assert s[1..][0] == '-' && CellsOf(s[1..], ['-']) == CellsOf(s[1..][1..], ['-'] + ['-']);
    assert s[1..][1..][0] == '-' && CellsOf(s[1..][1..], ['-'] + ['-']) == CellsOf(rest, Dashes());
  }

  lemma {:induction false} DelimiterReads(n: nat)
    requires n > 0
    ensures CellsOf(Joined("|", Repeated(Dashes(), n)), []) == Repeated(Dashes(), n)
  {
    assert Strip(Dashes()) == Dashes();
    if n == 1 {
      ReadsDashes([]);
      assert Joined("|", Repeated(Dashes(), 1)) == Dashes() + [];
    } else {
      DelimiterReads(n - 1);
      var more := Joined("|", Repeated(Dashes(), n - 1));
      assert Repeated(Dashes(), n)[1..] == Repeated(Dashes(), n - 1);
      assert Joined("|", Repeated(Dashes(), n)) == Dashes() + (['|'] + more);
      ReadsDashes(['|'] + more);
      assert (['|'] + more)[1..] == more;
    }
  }

  lemma {:induction false} DashesEnd(n: nat)
    requires n > 0
    ensures var s := Joined("|", Repeated(Dashes(), n)); |s| > 0 && s[|s| - 1] == '-'
  {
    if n > 1 {
      DashesEnd(n - 1);
      assert Repeated(Dashes(), n)[1..] == Repeated(Dashes(), n - 1);
    }
  }

  lemma {:induction false} DelimiterCellCount(n: nat)
    requires n > 0
    ensures SplitRow(PrintedDelimiter(n)) == Repeated(Dashes(), n)
  {
    var s, inside := PrintedDelimiter(n), Joined("|", Repeated(Dashes(), n));
    RunIs(s, IsSpace, 0);
    assert LStrip(s) == s && Strip(s) == s;
    DashesEnd(n);
    assert s[1..] == inside + ['|'] && s[1..][..|s[1..]| - 1] == inside;
    assert RowBody(s) == inside;
    CellsFromIs(inside, 0, []);
    assert inside[0..] == inside;
    DelimiterReads(n);
  }

  // ---- the whole table

  /** From line `i` on stand a header row, the delimiter row and the rows; then a blank line or the end of the text. */
  ghost predicate Printed(lines: seq<Line>, i: nat, titles: seq<string>, rows: seq<seq<string>>) {
    && titles != [] && i + 2 + |rows| <= |lines|
    && lines[i].text == PrintedRow(Cells(titles))
    && lines[i + 1].text == PrintedDelimiter(|titles|)
    && (forall k :: 0 <= k < |rows| ==> |rows[k]| == |titles| && lines[i + 2 + k].text == PrintedRow(Cells(rows[k])))
    && (i + 2 + |rows| < |lines| ==> Blank(lines[i + 2 + |rows|].text))
  }

  function AllNormals(rows: seq<seq<string>>): (r: seq<seq<string>>)
    ensures |r| == |rows| && forall k :: 0 <= k < |rows| ==> r[k] == Normals(rows[k])
  {
    if rows == [] then [] else [Normals(rows[0])] + AllNormals(rows[1..])
  }

  lemma {:induction false} PrintedRowLook(g: Grammar, values: seq<string>)
    requires Real(g) && values != []
    ensures IsRow(g(PrintedRow(Cells(values))), Normals(values), |values|)
  {
    PipeFirst(PrintedRow(Cells(values)));
    RowRoundTrip(values);
  }

  predicate IsDelimiter(f: Shape, width: nat) {
    f.pipe && f.delimiterRow && f.cells == Repeated(Dashes(), width)
  }

  lemma {:induction false} DelimiterLook(g: Grammar, n: nat)
    requires Real(g) && n > 0
    ensures IsDelimiter(g(PrintedDelimiter(n)), n)
  {
    PipeFirst(PrintedDelimiter(n));
    DelimiterIsRow(n);
    DelimiterCellCount(n);
  }

  lemma {:induction false} BlankLook(g: Grammar, s: string)
    requires Real(g) && Blank(s)
    ensures g(s).blank
  {
    assert Look(s).blank;
  }

  // ---- any lines that look like a table

  ghost predicate Tabular(g: Grammar, lines: seq<Line>, i: nat, header: seq<string>, cells: seq<seq<string>>) {
    && i + 2 + |cells| <= |lines|
    && IsRow(g(lines[i].text), header, |header|) && IsDelimiter(g(lines[i + 1].text), |header|)
    && AreRows(g, lines, i + 2, cells, |header|)
    && (i + 2 + |cells| < |lines| ==> g(lines[i + 2 + |cells|].text).blank)
  }

  /** One table block, with these cells, that takes up all the lines of the table. */
  ghost predicate ReadAsTable(step: Step, lines: seq<Line>, i: nat, header: seq<string>, cells: seq<seq<string>>)
    requires i + 2 + |cells| <= |lines|
  {
    var end := i + 2 + |cells|;
    step == Step(Leaf(Table(lines[i].number, header, Repeated(Plain, |header|), cells, Numbers(lines, i + 2, end))), end)
  }

  ghost predicate AreRows(g: Grammar, lines: seq<Line>, i: nat, cells: seq<seq<string>>, width: nat) {
    i + |cells| <= |lines| && forall k :: 0 <= k < |cells| ==> IsRow(g(lines[i + k].text), cells[k], width)
  }

  predicate IsRow(f: Shape, cells: seq<string>, width: nat) {
    RowShaped(f) && f.cells == cells && |cells| == width
  }

  lemma {:induction false} RowsRead(g: Grammar, lines: seq<Line>, i: nat, header: seq<string>, cells: seq<seq<string>>, n: nat)
    requires Tabular(g, lines, i, header, cells) && n <= |cells|
    ensures Rows(g, lines, i + 2, i + 2 + n) == cells[..n]
    ensures BadRow(g, lines, i + 2, i + 2 + n, |header|).None?
    decreases n
  {
    if n > 0 {
      RowsRead(g, lines, i, header, cells, n - 1);
      assert IsRow(g(lines[i + 2 + (n - 1)].text), cells[n - 1], |header|);
      assert cells[..n] == cells[..n - 1] + [cells[n - 1]];
    }
  }

  lemma {:induction false} RowsEnd(g: Grammar, lines: seq<Line>, i: nat, header: seq<string>, cells: seq<seq<string>>, n: nat)
    requires Tabular(g, lines, i, header, cells) && n <= |cells|
    ensures SpanEnd(g, lines, i + 2 + n, TableRows) == i + 2 + |cells|
    decreases |cells| - n
  {
    if n < |cells| {
      assert IsRow(g(lines[i + 2 + n].text), cells[n], |header|);
      RowsEnd(g, lines, i, header, cells, n + 1);
    }
  }

  lemma {:induction false} PlainAlignments(n: nat)
    ensures Alignments(Repeated(Dashes(), n)) == Repeated(Plain, n)
  {
    if n > 0 {
      PlainAlignments(n - 1);
      assert Repeated(Dashes(), n)[..n - 1] == Repeated(Dashes(), n - 1);
      assert Repeated(Plain, n) == Repeated(Plain, n - 1) + [Plain];
    }
  }

  lemma {:induction false} TabularStep(g: Grammar, lines: seq<Line>, i: nat, header: seq<string>, cells: seq<seq<string>>)
    requires Tabular(g, lines, i, header, cells)
    ensures ReadAsTable(StepAt(g, lines, i), lines, i, header, cells)
  {
    RowsEnd(g, lines, i, header, cells, 0);
    RowsRead(g, lines, i, header, cells, |cells|);
    PlainAlignments(|header|);
    assert cells[..|cells|] == cells;
    assert IsTableStart(g, lines, i);
  }

  lemma {:induction false} RowLook(g: Grammar, lines: seq<Line>, i: nat, titles: seq<string>, rows: seq<seq<string>>, k: nat)
    requires Real(g) && Printed(lines, i, titles, rows) && k < |rows|
    ensures IsRow(g(lines[i + 2 + k].text), AllNormals(rows)[k], |titles|)
  {
    PrintedRowLook(g, rows[k]);
  }

  lemma {:induction false} HeadLook(g: Grammar, lines: seq<Line>, i: nat, titles: seq<string>, rows: seq<seq<string>>)
    requires Real(g) && Printed(lines, i, titles, rows)
    ensures IsRow(g(lines[i].text), Normals(titles), |titles|) && IsDelimiter(g(lines[i + 1].text), |titles|)
    ensures i + 2 + |rows| < |lines| ==> g(lines[i + 2 + |rows|].text).blank
  {
    PrintedRowLook(g, titles);
    DelimiterLook(g, |titles|);
    if i + 2 + |rows| < |lines| { BlankLook(g, lines[i + 2 + |rows|].text); }
  }

  lemma {:induction false} RowsLook(g: Grammar, lines: seq<Line>, i: nat, titles: seq<string>, rows: seq<seq<string>>)
    requires Real(g) && Printed(lines, i, titles, rows)
    ensures AreRows(g, lines, i + 2, AllNormals(rows), |titles|)
  {
    forall k | 0 <= k < |rows| ensures IsRow(g(lines[i + 2 + k].text), AllNormals(rows)[k], |titles|) {
      RowLook(g, lines, i, titles, rows, k);
    }
  }

  lemma {:induction false} PrintedIsTabular(g: Grammar, lines: seq<Line>, i: nat, titles: seq<string>, rows: seq<seq<string>>)
    requires Real(g) && Printed(lines, i, titles, rows)
    ensures Tabular(g, lines, i, Normals(titles), AllNormals(rows))
  {
    HeadLook(g, lines, i, titles, rows);
    RowsLook(g, lines, i, titles, rows);
  }

  /** The parser reads the printed table as one table block that holds every value, white space normalised, and never
      finds a row of the wrong width. */
  lemma {:induction false} TableRoundTrip(g: Grammar, lines: seq<Line>, i: nat, titles: seq<string>, rows: seq<seq<string>>)
    requires Real(g) && Printed(lines, i, titles, rows)
    ensures ReadAsTable(StepAt(g, lines, i), lines, i, Normals(titles), AllNormals(rows))
  {
    PrintedIsTabular(g, lines, i, titles, rows);
    TabularStep(g, lines, i, Normals(titles), AllNormals(rows));
  }
}
