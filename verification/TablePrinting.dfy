/** Rows of the table that `render_add` prints, and what the Markdown parser makes of them. */
module TablePrinting {
  import opened Results
  import opened MarkdownText

  // ---- the printer

  /** `str.split()` */
  function Words(s: string): seq<string>
    decreases |s|
  {
    var t := LStrip(s);
    if t == [] then []
    else
      var n := Run(t, c => !IsSpace(c));
      WordsShorten(s);
      [t[..n]] + Words(t[n..])
  }

  lemma {:induction false} WordsShorten(s: string)
    ensures var t := LStrip(s); t != [] ==> Run(t, c => !IsSpace(c)) > 0
  {
  }

  /** `separator.join(parts)` */
  function Joined(separator: string, parts: seq<string>): string {
    if parts == [] then [] else if |parts| == 1 then parts[0] else parts[0] + separator + Joined(separator, parts[1..])
  }

  /** The value on one line, its words one blank apart. */
  function Normal(value: string): string {
    Joined(" ", Words(value))
  }

  /** `replace("|", "\\|")` */
  function Escaped(s: string): string {
    if s == [] then [] else (if s[0] == '|' then ['\\', '|'] else [s[0]]) + Escaped(s[1..])
  }

  function Cell(value: string): string {
    Escaped(Normal(value))
  }

  function Cells(values: seq<string>): (r: seq<string>)
    ensures |r| == |values|
  {
    if values == [] then [] else [Cell(values[0])] + Cells(values[1..])
  }

  function Normals(values: seq<string>): (r: seq<string>)
    ensures |r| == |values|
  {
    if values == [] then [] else [Normal(values[0])] + Normals(values[1..])
  }

  function PrintedRow(cells: seq<string>): string {
    "| " + Joined(" | ", cells) + " |"
  }

  // ---- normalised values are stripped

  /** No white space at either end. */
  predicate Trim(s: string) {
    s != [] ==> !IsSpace(s[0]) && !IsSpace(s[|s| - 1])
  }

  lemma {:induction false} WordsTrim(s: string)
    ensures forall k :: 0 <= k < |Words(s)| ==> Words(s)[k] != [] && Trim(Words(s)[k])
    decreases |s|
  {
    var t := LStrip(s);
    if t != [] {
      var n := Run(t, c => !IsSpace(c));
      WordsShorten(s);
      assert !IsSpace(t[..n][0]) && !IsSpace(t[..n][n - 1]);
      WordsTrim(t[n..]);
    }
  }

  lemma {:induction false} JoinedTrim(words: seq<string>)
    requires forall k :: 0 <= k < |words| ==> words[k] != [] && Trim(words[k])
    ensures Trim(Joined(" ", words)) && (words != [] ==> Joined(" ", words) != [])
  {
    if |words| > 1 { JoinedTrim(words[1..]); }
  }

  lemma {:induction false} NormalTrim(value: string)
    ensures Trim(Normal(value))
  {
    WordsTrim(value);
    JoinedTrim(Words(value));
  }

  lemma {:induction false} StripPadded(s: string)
    requires Trim(s)
    ensures Strip([' '] + s + [' ']) == s
  {
    var padded := [' '] + s + [' '];
    if s == [] {
      RunIs(padded, IsSpace, 2);
    } else {
      RunIs(padded, IsSpace, 1);
      assert LStrip(padded) == s + [' '];
      assert (s + [' '])[..|s|] == s;
      assert RStrip(s) == s;
      assert RStrip(s + [' ']) == RStrip(s);
    }
  }

  // ---- the parser, read from the left

  function CellsOf(s: string, cell: string): seq<string>
    decreases |s|
  {
    if s == [] then [Strip(cell)]
    else if s[0] == '\\' && |s| > 1 && s[1] == '|' then CellsOf(s[2..], cell + ['|'])
    else if s[0] == '|' then [Strip(cell)] + CellsOf(s[1..], [])
    else CellsOf(s[1..], cell + [s[0]])
  }

  lemma {:induction false} CellsFromIs(s: string, i: nat, cell: string)
    requires i <= |s|
    ensures CellsFrom(s, i, cell) == CellsOf(s[i..], cell)
    decreases |s| - i
  {
    if i < |s| {
      if s[i] == '\\' && i + 1 < |s| && s[i + 1] == '|' {
        CellsFromIs(s, i + 2, cell + ['|']);
        assert s[i..][2..] == s[i + 2..];
      } else {
        CellsFromIs(s, i + 1, []);
        CellsFromIs(s, i + 1, cell + [s[i]]);
        assert s[i..][1..] == s[i + 1..];
      }
    }
  }

  /** An escaped text is read back into the cell, whatever backslashes and pipes it holds. */
  lemma {:induction false} ReadsEscaped(x: string, rest: string, cell: string)
    requires rest == [] || rest[0] != '|'
    ensures CellsOf(Escaped(x) + rest, cell) == CellsOf(rest, cell + x)
  {
    if x == [] {
      assert Escaped(x) + rest == rest && cell + x == cell;
    } else {
      var tail := Escaped(x[1..]) + rest;
      ReadsEscaped(x[1..], rest, cell + [x[0]]);
      assert cell + [x[0]] + x[1..] == cell + x;
      assert tail == [] || tail[0] != '|';
      if x[0] == '|' {
        assert Escaped(x) + rest == ['\\', '|'] + tail;
        assert (Escaped(x) + rest)[2..] == tail;
      } else {
        assert Escaped(x) + rest == [x[0]] + tail;
        assert (Escaped(x) + rest)[1..] == tail;
      }
    }
  }

  /** What stands between the outer pipes. */
  function Inside(cells: seq<string>): string {
    if cells == [] then []
    else if |cells| == 1 then [' '] + cells[0] + [' ']
    else [' '] + cells[0] + [' '] + (['|'] + Inside(cells[1..]))
  }

  lemma {:induction false} PrintedIsInside(cells: seq<string>)
    requires cells != []
    ensures PrintedRow(cells) == ['|'] + Inside(cells) + ['|']
  {
    if |cells| > 1 {
      PrintedIsInside(cells[1..]);
      JoinedInside(cells);
    }
  }

  lemma {:induction false} JoinedInside(cells: seq<string>)
    requires cells != []
    ensures [' '] + Joined(" | ", cells) + [' '] == Inside(cells)
  {
    if |cells| > 1 {
      JoinedInside(cells[1..]);
      assert [' '] + Joined(" | ", cells) + [' ']
          == [' '] + cells[0] + [' '] + (['|'] + ([' '] + Joined(" | ", cells[1..]) + [' ']));
    }
  }

  /** One printed cell is read back, up to the pipe that ends it. */
  lemma {:induction false} CellReads(x: string, rest: string)
    requires Trim(x) && (rest == [] || rest[0] == '|')
    ensures CellsOf([' '] + Escaped(x) + [' '] + rest, []) == [x] + (if rest == [] then [] else CellsOf(rest[1..], []))
  {
    var after := [' '] + rest;
    var whole := [' '] + Escaped(x) + [' '] + rest;
    var none: string := [];
    assert whole[0] == ' ' && whole[1..] == Escaped(x) + after && none + [' '] == [' '];
    assert CellsOf(whole, none) == CellsOf(Escaped(x) + after, [' ']);
    ReadsEscaped(x, after, [' ']);
    assert after[0] == ' ' && after[1..] == rest;
    assert CellsOf(after, [' '] + x) == CellsOf(rest, [' '] + x + [' ']);
    StripPadded(x);
  }

  lemma {:induction false} InsideReads(values: seq<string>)
    requires values != []
    ensures CellsOf(Inside(Cells(values)), []) == Normals(values)
  {
    var x, cells := Normal(values[0]), Cells(values);
    NormalTrim(values[0]);
    assert cells[1..] == Cells(values[1..]);
    if |values| == 1 {
      CellReads(x, []);
      assert [' '] + Escaped(x) + [' '] + [] == Inside(cells);
      assert Normals(values[1..]) == [];
    } else {
      var rest := ['|'] + Inside(cells[1..]);
      CellReads(x, rest);
      InsideReads(values[1..]);
      assert rest[1..] == Inside(cells[1..]);
      assert Inside(cells) == [' '] + Escaped(x) + [' '] + rest;
    }
  }

  /** Splitting a printed row gives the values back, white space normalised. */
  lemma {:induction false} RowRoundTrip(values: seq<string>)
    requires values != []
    ensures SplitRow(PrintedRow(Cells(values))) == Normals(values)
  {
    var row, inside := PrintedRow(Cells(values)), Inside(Cells(values));
    PrintedIsInside(Cells(values));
    BodyIsInside(Cells(values));
    CellsFromIs(inside, 0, []);
    assert inside[0..] == inside;
    InsideReads(values);
  }

  lemma {:induction false} InsideEndsBlank(cells: seq<string>)
    requires cells != []
    ensures |Inside(cells)| >= 2 && Inside(cells)[|Inside(cells)| - 1] == ' '
  {
    if |cells| > 1 { InsideEndsBlank(cells[1..]); }
  }

  lemma {:induction false} BodyIsInside(cells: seq<string>)
    requires cells != []
    ensures RowBody(['|'] + Inside(cells) + ['|']) == Inside(cells)
  {
    var row := ['|'] + Inside(cells) + ['|'];
    RunIs(row, IsSpace, 0);
    assert LStrip(row) == row;
    assert Strip(row) == row;
    InsideEndsBlank(cells);
    assert row[1..] == Inside(cells) + ['|'];
    assert row[1..][..|row[1..]| - 1] == Inside(cells);
  }

  /** A row of no cells reads back as one empty cell, so the round trip needs a cell. */
  lemma {:induction false} RoundTripIff(values: seq<string>)
    ensures SplitRow(PrintedRow(Cells(values))) == Normals(values) <==> values != []
  {
    if values != [] {
      RowRoundTrip(values);
    } else {
      CellsFromNonEmpty(RowBody(PrintedRow(Cells(values))), 0, []);
    }
  }

  lemma {:induction false} CellsFromNonEmpty(s: string, i: nat, cell: string)
    requires i <= |s|
    ensures CellsFrom(s, i, cell) != []
    decreases |s| - i
  {
    if i < |s| {
      if s[i] == '\\' && i + 1 < |s| && s[i + 1] == '|' { CellsFromNonEmpty(s, i + 2, cell + ['|']); }
      else { CellsFromNonEmpty(s, i + 1, cell + [s[i]]); }
    }
  }

  // ---- what normalising means

  predicate IsWord(s: string) {
    s != [] && forall k :: 0 <= k < |s| ==> !IsSpace(s[k])
  }

  lemma {:induction false} WordsAre(s: string)
    ensures forall k :: 0 <= k < |Words(s)| ==> IsWord(Words(s)[k])
    decreases |s|
  {
    var t := LStrip(s);
    if t != [] {
      WordsShorten(s);
      WordsAre(t[Run(t, c => !IsSpace(c))..]);
    }
  }

  lemma {:induction false} FirstWord(word: string, rest: string)
    requires IsWord(word) && (rest == [] || IsSpace(rest[0]))
    ensures Words(word + rest) == [word] + Words(rest)
  {
    var s := word + rest;
    RunIs(s, IsSpace, 0);
    assert LStrip(s) == s;
    RunIs(s, c => !IsSpace(c), |word|);
    assert s[..|word|] == word && s[|word|..] == rest;
  }

  lemma {:induction false} WordsOfBlank(s: string)
    ensures Words([' '] + s) == Words(s)
  {
    assert LStrip([' '] + s) == LStrip(s) by { assert ([' '] + s)[1..] == s; }
  }

  /** Normalising keeps exactly the words: the printed value has the words of the original, and is its own normal form. */
  lemma {:induction false} NormalKeepsWords(value: string)
    ensures Words(Normal(value)) == Words(value) && Normal(Normal(value)) == Normal(value)
  {
    WordsAre(value);
    WordsJoined(Words(value));
  }

  lemma {:induction false} WordsJoined(words: seq<string>)
    requires forall k :: 0 <= k < |words| ==> IsWord(words[k])
    ensures Words(Joined(" ", words)) == words
  {
    if |words| == 1 {
      FirstWord(words[0], []);
      assert words[0] + [] == words[0];
    } else if |words| > 1 {
      var rest := Joined(" ", words[1..]);
      WordsJoined(words[1..]);
      WordsOfBlank(rest);
      FirstWord(words[0], [' '] + rest);
      assert Joined(" ", words) == words[0] + ([' '] + rest);
    }
  }
}
