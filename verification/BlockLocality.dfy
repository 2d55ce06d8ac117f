/** Parsing is local between headings: the lines below one heading, up to another one, parse the same way cut out of
    the text as they do inside it. */
module BlockLocality {
  import opened Results
  import opened MarkdownChunks
  import opened MarkdownBlocks
  import MarkdownText

  /** `b` is the lines of `a` from `d` on, as far as it goes. */
  ghost predicate Window(a: seq<Line>, b: seq<Line>, d: nat) {
    d + |b| <= |a| && forall k :: 0 <= k < |b| ==> b[k] == a[d + k]
  }

  /** The window ends at a heading line or with the text. */
  ghost predicate Cut(g: Grammar, a: seq<Line>, b: seq<Line>, d: nat) {
    Window(a, b, d) && (d + |b| < |a| ==> StopsAll(g(a[d + |b|].text)))
  }

  predicate StopsAll(f: Shape) {
    f.heading.Some? && !f.blank && f.indent < 4
  }

  // ---- line by line

  lemma {:induction false} SpanCut(g: Grammar, a: seq<Line>, b: seq<Line>, d: nat, j: nat, span: Span)
    requires Window(a, b, d) && j <= |b|
    ensures SpanEnd(g, a, d + j, span) <= d + |b| ==> SpanEnd(g, b, j, span) + d == SpanEnd(g, a, d + j, span)
    ensures SpanEnd(g, a, d + j, span) > d + |b| ==> SpanEnd(g, b, j, span) == |b|
    decreases |b| - j
  {
    if j < |b| { SpanCut(g, a, b, d, j + 1, span); }
  }

  lemma {:induction false} FenceBodyCut(g: Grammar, a: seq<Line>, b: seq<Line>, d: nat, i: nat, j: nat, indent: nat)
    requires Window(a, b, d) && i <= j <= |b|
    ensures FenceBody(g, b, i, j, indent) == FenceBody(g, a, d + i, d + j, indent)
    decreases j - i
  {
    if i < j {
      FenceBodyCut(g, a, b, d, i, j - 1, indent);
      assert b[j - 1] == a[d + j - 1];
    }
  }

  lemma {:induction false} LStrippedCut(g: Grammar, a: seq<Line>, b: seq<Line>, d: nat, i: nat, j: nat)
    requires Window(a, b, d) && i <= j <= |b|
    ensures LStripped(g, b, i, j) == LStripped(g, a, d + i, d + j)
    decreases j - i
  {
    if i < j { LStrippedCut(g, a, b, d, i, j - 1); }
  }

  lemma {:induction false} RowsCut(g: Grammar, a: seq<Line>, b: seq<Line>, d: nat, i: nat, j: nat)
    requires Window(a, b, d) && i <= j <= |b|
    ensures Rows(g, b, i, j) == Rows(g, a, d + i, d + j) && Numbers(b, i, j) == Numbers(a, d + i, d + j)
    decreases j - i
  {
    if i < j { RowsCut(g, a, b, d, i, j - 1); }
  }

  lemma {:induction false} BadRowCut(g: Grammar, a: seq<Line>, b: seq<Line>, d: nat, i: nat, j: nat, width: nat)
    requires Window(a, b, d) && i <= j <= |b|
    ensures BadRow(g, a, d + i, d + j, width)
         == match BadRow(g, b, i, j, width) case None => None case Some(k) => Some(d + k)
    decreases j - i
  {
    if i < j { BadRowCut(g, a, b, d, i, j - 1, width); }
  }

  lemma {:induction false} UnquotedCut(g: Grammar, a: seq<Line>, b: seq<Line>, d: nat, i: nat, j: nat)
    requires Window(a, b, d) && i <= j <= |b|
    ensures Unquoted(g, b, i, j) == Unquoted(g, a, d + i, d + j)
    decreases j - i
  {
    if i < j { UnquotedCut(g, a, b, d, i, j - 1); }
  }

  lemma {:induction false} BlankedCut(g: Grammar, a: seq<Line>, b: seq<Line>, d: nat, i: nat, j: nat)
    requires Window(a, b, d) && i <= j <= |b|
    ensures Blanked(b, i, j) == Blanked(a, d + i, d + j)
    decreases j - i
  {
    if i < j { BlankedCut(g, a, b, d, i, j - 1); }
  }

  lemma {:induction false} ParaEndCut(g: Grammar, a: seq<Line>, b: seq<Line>, d: nat, j: nat)
    requires Cut(g, a, b, d) && j <= |b|
    ensures ParaEnd(g, a, d + j) == ParaStop(d + ParaEnd(g, b, j).end, ParaEnd(g, b, j).setext)
    decreases |b| - j
  {
    if j < |b| { ParaEndCut(g, a, b, d, j + 1); }
  }

  // ---- constructs

  ghost predicate SameStep(a: Step, b: Step, d: nat) {
    a.chunk == b.chunk && a.end == d + b.end
  }

  lemma {:induction false} FenceCut(g: Grammar, a: seq<Line>, b: seq<Line>, d: nat, j: nat, f: MarkdownText.FenceMark)
    requires Window(a, b, d) && j < |b| && FenceStep(g, a, d + j, f).end <= d + |b|
    ensures SameStep(FenceStep(g, a, d + j, f), FenceStep(g, b, j, f), d)
  {
    SpanCut(g, a, b, d, j + 1, Unclosed(f.mark, f.length));
    var close := FenceClose(g, b, j, f);
    if close < |b| { FenceBodyCut(g, a, b, d, j + 1, close, f.indent); }
  }

  lemma {:induction false} ParaPartsCut(g: Grammar, a: seq<Line>, b: seq<Line>, d: nat, j: nat, end: nat)
    requires Window(a, b, d) && j < end <= |b|
    ensures ParaText(g, LStripped(g, a, d + j, d + end)) == ParaText(g, LStripped(g, b, j, end))
  {
    LStrippedCut(g, a, b, d, j, end);
  }

  lemma {:induction false} ParaCut(g: Grammar, a: seq<Line>, b: seq<Line>, d: nat, j: nat)
    requires Cut(g, a, b, d) && j < |b|
    ensures SameStep(ParaStep(g, a, d + j), ParaStep(g, b, j), d)
  {
    ParaEndCut(g, a, b, d, j + 1);
    ParaPartsCut(g, a, b, d, j, ParaEnd(g, b, j + 1).end);
  }

  lemma {:induction false} TableStartCut(g: Grammar, a: seq<Line>, b: seq<Line>, d: nat, j: nat)
    requires Cut(g, a, b, d) && j < |b|
    ensures IsTableStart(g, a, d + j) == IsTableStart(g, b, j)
  {
  }

  lemma {:induction false} TableEndCut(g: Grammar, a: seq<Line>, b: seq<Line>, d: nat, j: nat)
    requires Cut(g, a, b, d) && j + 1 < |b|
    ensures TableEnd(g, a, d + j) == d + TableEnd(g, b, j)
  {
    SpanIs(g, a, d + j + 2, TableRows);
    SpanCut(g, a, b, d, j + 2, TableRows);
  }

  lemma {:induction false} TableCut(g: Grammar, a: seq<Line>, b: seq<Line>, d: nat, j: nat)
    requires Cut(g, a, b, d) && j + 1 < |b|
    ensures SameStep(TableStep(g, a, d + j), TableStep(g, b, j), d)
  {
    TableEndCut(g, a, b, d, j);
    var end := TableEnd(g, b, j);
    RowsCut(g, a, b, d, j + 2, end);
    BadRowCut(g, a, b, d, j + 2, end, |g(b[j].text).cells|);
    var bad := BadRow(g, b, j + 2, end, |g(b[j].text).cells|);
    if bad.Some? { assert b[bad.value] == a[d + bad.value]; }
  }

  lemma {:induction false} QuoteCut(g: Grammar, a: seq<Line>, b: seq<Line>, d: nat, j: nat)
    requires Cut(g, a, b, d) && j < |b| && g(b[j].text).quote
    ensures SameStep(QuoteStep(g, a, d + j), QuoteStep(g, b, j), d)
  {
    SpanIs(g, a, d + j, Quoted);
    SpanCut(g, a, b, d, j, Quoted);
    UnquotedCut(g, a, b, d, j, QuoteStop(g, b, j));
  }

  // ---- lists

  /** Blank lines run on to the same line, at most to the cut. */
  lemma {:induction false} BlanksCut(g: Grammar, a: seq<Line>, b: seq<Line>, d: nat, j: nat)
    requires Cut(g, a, b, d) && j <= |b|
    ensures SpanEnd(g, a, d + j, Blanks) == d + SpanEnd(g, b, j, Blanks)
  {
    SpanIs(g, a, d + j, Blanks);
    SpanCut(g, a, b, d, j, Blanks);
  }

  /** Whether the item goes on past the cut with the lines `more` it takes at `j`. */
  ghost predicate Overruns(g: Grammar, a: seq<Line>, b: seq<Line>, d: nat, j: nat, column: nat, more: seq<Line>)
    requires Cut(g, a, b, d)
  {
    && more != []
    && (j + |more| > |b| || (j + |more| == |b| && d + |b| < |a| && g(a[d + |b|].text).indent >= column))
  }

  /** An item that does not go on past the cut takes the same next lines. */
  lemma {:induction false} NextCut(g: Grammar, a: seq<Line>, b: seq<Line>, d: nat, j: nat, column: nat, previous: string)
    requires Cut(g, a, b, d) && j <= |b|
    requires !Overruns(g, a, b, d, j, column, NextInItem(g, a, d + j, column, previous))
    ensures NextInItem(g, a, d + j, column, previous) == NextInItem(g, b, j, column, previous)
  {
    if j < |b| {
      if g(b[j].text).blank { NextBlankCut(g, a, b, d, j, column, previous); }
      TableStartCut(g, a, b, d, j);
    }
  }

  lemma {:induction false} NextBlankCut(g: Grammar, a: seq<Line>, b: seq<Line>, d: nat, j: nat, column: nat, previous: string)
    requires Cut(g, a, b, d) && j < |b| && g(b[j].text).blank
    requires !Overruns(g, a, b, d, j, column, NextInItem(g, a, d + j, column, previous))
    ensures NextInItem(g, a, d + j, column, previous) == NextInItem(g, b, j, column, previous)
  {
    BlanksCut(g, a, b, d, j);
    var n := SpanEnd(g, b, j, Blanks);
    BlankedCut(g, a, b, d, j, n);
    assert n > j;
  }

  /** A heading line indented deep enough belongs to the item before it. */
  lemma {:induction false} TakesHeading(g: Grammar, a: seq<Line>, more: seq<Line>, i: nat, column: nat)
    requires more != [] && i + |more| < |a|
    ensures !g(a[i + |more|].text).blank && g(a[i + |more|].text).indent >= column ==> |ItemFrom(g, a, more, i, column)| > |more|
  {
    if !g(a[i + |more|].text).blank && g(a[i + |more|].text).indent >= column {
      var previous := more[|more| - 1].text;
      assert |NextInItem(g, a, i + |more|, column, previous)| == 1;
      assert ItemRest(g, a, i + |more|, column, previous) != [];
    }
  }

  /** What ends before the cut does not overrun it. */
  lemma {:induction false} NoOverrun(g: Grammar, a: seq<Line>, b: seq<Line>, d: nat, j: nat, column: nat, more: seq<Line>)
    requires Cut(g, a, b, d) && j <= |b| && d + j + |more| <= |a|
    requires j + |ItemFrom(g, a, more, d + j, column)| <= |b|
    ensures !Overruns(g, a, b, d, j, column, more)
  {
    if more != [] && d + j + |more| < |a| {
      TakesHeading(g, a, more, d + j, column);
    }
  }

  lemma {:induction false} ItemRestCut(g: Grammar, a: seq<Line>, b: seq<Line>, d: nat, j: nat, column: nat, previous: string)
    requires Cut(g, a, b, d) && j <= |b|
    requires j + |ItemRest(g, a, d + j, column, previous)| <= |b|
    ensures ItemRest(g, a, d + j, column, previous) == ItemRest(g, b, j, column, previous)
    decreases |b| - j, 1
  {
    var more := NextInItem(g, a, d + j, column, previous);
    NoOverrun(g, a, b, d, j, column, more);
    NextCut(g, a, b, d, j, column, previous);
    ItemFromCut(g, a, b, d, j, column, more);
  }

  lemma {:induction false} ItemFromCut(g: Grammar, a: seq<Line>, b: seq<Line>, d: nat, j: nat, column: nat, more: seq<Line>)
    requires Cut(g, a, b, d) && j + |more| <= |b|
    requires j + |ItemFrom(g, a, more, d + j, column)| <= |b|
    ensures ItemFrom(g, a, more, d + j, column) == ItemFrom(g, b, more, j, column)
    decreases |b| - j, 0
  {
    if more != [] {
      var next, previous := j + |more|, more[|more| - 1].text;
      assert |ItemFrom(g, a, more, d + j, column)| == |more| + |ItemRest(g, a, d + next, column, previous)|;
      ItemRestCut(g, a, b, d, next, column, previous);
    }
  }

  lemma {:induction false} ItemCut(g: Grammar, a: seq<Line>, b: seq<Line>, d: nat, j: nat)
    requires Cut(g, a, b, d) && j < |b| && g(b[j].text).item.Some?
    requires j + |ItemLines(g, a, d + j)| <= |b|
    ensures ItemLines(g, a, d + j) == ItemLines(g, b, j)
  {
    var start := ItemStart(g, b[j].text, g(b[j].text).item.value);
    ItemFromCut(g, a, b, d, j, start.0, [Line(b[j].number, start.1)]);
  }

  lemma {:induction false} NextItemCut(g: Grammar, a: seq<Line>, b: seq<Line>, d: nat, end: nat, ordered: bool, kind: char)
    requires Cut(g, a, b, d) && end <= |b|
    ensures NextItem(g, a, d + end, ordered, kind)
         == match NextItem(g, b, end, ordered, kind) case None => None case Some(gap) => Some(d + gap)
  {
    BlanksCut(g, a, b, d, end);
  }

  ghost predicate SameList(a: ListSpan, b: ListSpan, d: nat) {
    a.groups == b.groups && a.end == d + b.end
  }

  lemma {:induction false} ListCut(g: Grammar, a: seq<Line>, b: seq<Line>, d: nat, j: nat, ordered: bool, kind: char)
    requires Cut(g, a, b, d) && j < |b| && ContinuesList(g, b[j].text, ordered, kind)
    requires ListAt(g, a, d + j, ordered, kind).end <= d + |b|
    ensures SameList(ListAt(g, a, d + j, ordered, kind), ListAt(g, b, j, ordered, kind), d)
    decreases |b| - j, 1
  {
    ListHead(g, a, d + j, ordered, kind);
    ListHead(g, b, j, ordered, kind);
    ItemCut(g, a, b, d, j);
    ListFromCut(g, a, b, d, ItemLines(g, b, j), j + |ItemLines(g, b, j)|, ordered, kind);
  }

  lemma {:induction false} ListHead(g: Grammar, lines: seq<Line>, i: nat, ordered: bool, kind: char)
    requires i < |lines| && ContinuesList(g, lines[i].text, ordered, kind)
    ensures ListAt(g, lines, i, ordered, kind)
         == ListFrom(g, lines, ItemLines(g, lines, i), i + |ItemLines(g, lines, i)|, ordered, kind)
  {
  }

  lemma {:induction false} ListFromCut(g: Grammar, a: seq<Line>, b: seq<Line>, d: nat, item: seq<Line>, end: nat,
                                       ordered: bool, kind: char)
    requires Cut(g, a, b, d) && end <= |b| && ListFrom(g, a, item, d + end, ordered, kind).end <= d + |b|
    ensures SameList(ListFrom(g, a, item, d + end, ordered, kind), ListFrom(g, b, item, end, ordered, kind), d)
    decreases |b| - end, 2
  {
    NextItemCut(g, a, b, d, end, ordered, kind);
    var next := NextItem(g, b, end, ordered, kind);
    if next.Some? {
      assert ListFrom(g, a, item, d + end, ordered, kind).end == ListAt(g, a, d + next.value, ordered, kind).end;
      ListCut(g, a, b, d, next.value, ordered, kind);
    }
  }

  lemma {:induction false} ListStepCut(g: Grammar, a: seq<Line>, b: seq<Line>, d: nat, j: nat, m: MarkdownText.ListMark)
    requires Cut(g, a, b, d) && j < |b| && g(b[j].text).item == Some(m) && !g(b[j].text).rule
    requires ListStep(g, a, d + j, m).end <= d + |b|
    ensures SameStep(ListStep(g, a, d + j, m), ListStep(g, b, j, m), d)
  {
    ListCut(g, a, b, d, j, MarkdownText.IsOrdered(m), MarkdownText.ListKind(m));
  }

  // ---- chunks

  /** A construct that ends before the cut is the same in the lines cut out. */
  lemma {:induction false} StepCut(g: Grammar, a: seq<Line>, b: seq<Line>, d: nat, j: nat)
    requires Cut(g, a, b, d) && j < |b| && StepAt(g, a, d + j).end <= d + |b|
    ensures SameStep(StepAt(g, a, d + j), StepAt(g, b, j), d)
  {
    var f := g(b[j].text);
    if f.blank {
    } else if f.indent >= 4 {
      SpanCut(g, a, b, d, j, Indented);
    } else if f.fence.Some? {
      FenceCut(g, a, b, d, j, f.fence.value);
    } else if f.heading.Some? || f.rule {
    } else if f.quote {
      QuoteCut(g, a, b, d, j);
    } else if f.item.Some? {
      ListStepCut(g, a, b, d, j, f.item.value);
    } else if f.reference {
    } else if f.html {
      SpanCut(g, a, b, d, j, Filled);
    } else {
      TableStartCut(g, a, b, d, j);
      if IsTableStart(g, b, j) { TableCut(g, a, b, d, j); } else { ParaCut(g, a, b, d, j); }
    }
  }
}
