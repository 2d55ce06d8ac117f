/** How a Markdown text falls into chunks: at each line stands one construct, which ends further down, and the next one
    begins at its end. A quote or list keeps its inner lines, markers taken off, for parsing once more. */
module MarkdownChunks {
  import opened Results
  import MarkdownText

  datatype Line = Line(number: int, text: string)

  datatype Block =
    | Heading(line: int, level: nat, text: string)
    | Para(line: int, text: string)
    | Code(line: int, info: string, text: string)
    | Quote(line: int, blocks: seq<Block>, alert: Option<string>)
    | ListBlock(line: int, ordered: bool, start: nat, items: seq<Item>)
    | Table(line: int, header: seq<string>, align: seq<Alignment>, rows: seq<seq<string>>, rowLines: seq<int>)
    | Rule(line: int)
    | Unsupported(line: int, reason: Reason)

  datatype Reason = IndentedCode | UnterminatedFence | ReferenceDefinition | RawHtml | SetextHeading | UnknownAlert
                  | LazyContinuation | BadTableRow

  datatype Alignment = Center | Left | Right | Plain

  datatype Item = Item(blocks: seq<Block>, checked: Option<bool>)

  /** What the parser asks about a line: the regular expressions and string methods of `MarkdownText`. */
  datatype Shape = Shape(
    blank: bool,
    indent: nat,
    lstripped: string,
    rstripped: string,
    fence: Option<MarkdownText.FenceMark>,
    closing: Option<MarkdownText.FenceRun>,
    heading: Option<MarkdownText.HeadingMark>,
    rule: bool,
    quote: bool,
    unquoted: string,
    item: Option<MarkdownText.ListMark>,
    setext: bool,
    interrupts: bool,
    reference: bool,
    html: bool,
    pipe: bool,
    cells: seq<string>,
    delimiterRow: bool,
    alertWord: Option<string>,
    taskMark: Option<(bool, nat)>)

  predicate OneLine(s: string) {
    '\n' !in s
  }

  /** Taking a marker off shortens a line, stripping never lengthens one, neither brings in a newline, and a heading
      line is no other shape and stops whatever came before it. */
  predicate WellShaped(s: string, f: Shape) {
    && (s == "" ==> f.blank)
    && f.indent <= |s|
    && |f.lstripped| <= |s|
    && (f.quote ==> |f.unquoted| < |s|)
    && (OneLine(s) ==> OneLine(f.lstripped) && OneLine(f.rstripped) && OneLine(f.unquoted))
    && (f.item.Some? ==>
          && 0 < |f.item.value.marker|
          && f.item.value.indent + |f.item.value.marker| + f.item.value.spaces + |f.item.value.rest| == |s|
          && (OneLine(s) ==> OneLine(f.item.value.rest)))
    && (f.heading.Some? ==> f.item.None? && !f.quote && !f.setext && !f.delimiterRow && f.interrupts)
  }

  ghost predicate Sound(g: string -> Shape) {
    forall s :: WellShaped(s, g(s))
  }

  /** What follows holds for any sound classification of lines; `MarkdownGrammar` proves the real one sound. */
  type Grammar = g: string -> Shape | Sound(g)
    witness s => Shape(s == "", 0, "", "", None, None, None, false, false, "", None, false, false, false, false, false, [],
                       false, None, None)

  // ---- sizes, for termination

  /** Characters of the lines from `i` to before `j`, plus one for each line. */
  function SizeRange(lines: seq<Line>, i: nat, j: nat): nat
    requires i <= j <= |lines|
    decreases j - i
  {
    if i == j then 0 else SizeRange(lines, i, j - 1) + |lines[j - 1].text| + 1
  }

  function Size(lines: seq<Line>): nat {
    SizeRange(lines, 0, |lines|)
  }

  lemma {:induction false} RangeOfFirst(a: seq<Line>, b: seq<Line>, n: nat)
    requires n <= |a|
    ensures SizeRange(a + b, 0, n) == SizeRange(a, 0, n)
  {
    if n > 0 { RangeOfFirst(a, b, n - 1); }
  }

  lemma {:induction false} RangeOfSecond(a: seq<Line>, b: seq<Line>, n: nat)
    requires n <= |b|
    ensures SizeRange(a + b, |a|, |a| + n) == SizeRange(b, 0, n)
  {
    if n > 0 { RangeOfSecond(a, b, n - 1); }
  }

  lemma {:induction false} RangeOfOne(lines: seq<Line>, i: nat)
    requires i < |lines|
    ensures SizeRange(lines, i, i + 1) == |lines[i].text| + 1
  {
    assert SizeRange(lines, i, i) == 0;
  }

  lemma {:induction false} RangeSplit(lines: seq<Line>, i: nat, j: nat, k: nat)
    requires i <= j <= k <= |lines|
    ensures SizeRange(lines, i, k) == SizeRange(lines, i, j) + SizeRange(lines, j, k)
    decreases k - j
  {
    if j < k { RangeSplit(lines, i, j, k - 1); }
  }

  lemma {:induction false} SizeConcat(a: seq<Line>, b: seq<Line>)
    ensures Size(a + b) == Size(a) + Size(b)
  {
    RangeSplit(a + b, 0, |a|, |a + b|);
    RangeOfFirst(a, b, |a|);
    RangeOfSecond(a, b, |b|);
  }

  lemma {:induction false} SizeNext(lines: seq<Line>, l: Line)
    ensures Size(lines + [l]) == Size(lines) + |l.text| + 1
  {
    RangeOfFirst(lines, [l], |lines|);
  }

  lemma {:induction false} RangeWithin(lines: seq<Line>, i: nat, j: nat)
    requires i <= j <= |lines|
    ensures SizeRange(lines, i, j) <= Size(lines)
  {
    RangeSplit(lines, 0, i, j);
    RangeSplit(lines, 0, j, |lines|);
  }

  /** A piece takes no more room than the lines from `i` on that it consumes. */
  ghost predicate Fits(a: seq<Line>, lines: seq<Line>, i: nat) {
    i + |a| <= |lines| && Size(a) <= SizeRange(lines, i, i + |a|)
  }

  lemma {:induction false} FitsConcat(a: seq<Line>, b: seq<Line>, lines: seq<Line>, i: nat)
    requires Fits(a, lines, i) && Fits(b, lines, i + |a|)
    ensures Fits(a + b, lines, i)
  {
    SizeConcat(a, b);
    RangeSplit(lines, i, i + |a|, i + |a| + |b|);
  }

  // ---- line spans

  /** Runs of lines the parser passes over. */
  datatype Span = Blanks | Indented | Unclosed(mark: char, length: nat) | Filled | TableRows | Quoted

  predicate In(f: Shape, span: Span) {
    match span
    case Blanks => f.blank
    case Indented => f.blank || f.indent >= 4
    case Unclosed(mark, length) => !(f.closing.Some? && f.closing.value.mark == mark && f.closing.value.length >= length)
    case Filled => !f.blank
    case TableRows => !f.blank && f.pipe && f.fence.None? && f.heading.None? && !f.quote
    case Quoted => f.quote
  }

  /** The first line at or after `i` that is not part of the span. */
  function SpanEnd(g: Grammar, lines: seq<Line>, i: nat, span: Span): (e: nat)
    requires i <= |lines|
    ensures i <= e <= |lines|
    decreases |lines| - i
  {
    if i == |lines| || !In(g(lines[i].text), span) then i else SpanEnd(g, lines, i + 1, span)
  }

  lemma {:induction false} SpanIs(g: Grammar, lines: seq<Line>, i: nat, span: Span)
    requires i <= |lines|
    ensures forall k :: i <= k < SpanEnd(g, lines, i, span) ==> In(g(lines[k].text), span)
    ensures SpanEnd(g, lines, i, span) < |lines| ==> !In(g(lines[SpanEnd(g, lines, i, span)].text), span)
    decreases |lines| - i
  {
    if i < |lines| && In(g(lines[i].text), span) { SpanIs(g, lines, i + 1, span); }
  }

  /** `"\n".join(parts)` */
  function Join(parts: seq<string>): string {
    if parts == [] then []
    else if |parts| == 1 then parts[0]
    else Join(parts[..|parts| - 1]) + ['\n'] + parts[|parts| - 1]
  }

  function Min(a: nat, b: nat): nat {
    if a < b then a else b
  }

  // ---- fenced code

  function Outdented(g: Grammar, s: string, indent: nat): string {
    s[Min(indent, g(s).indent)..]
  }

  function FenceBody(g: Grammar, lines: seq<Line>, i: nat, j: nat, indent: nat): seq<string>
    requires i <= j <= |lines|
    decreases j - i
  {
    if i == j then []
    else FenceBody(g, lines, i, j - 1, indent) + [Outdented(g, lines[j - 1].text, indent)]
  }

  /** The closing line of a fence opened at `i`, or the end of the text. */
  function FenceClose(g: Grammar, lines: seq<Line>, i: nat, f: MarkdownText.FenceMark): (e: nat)
    requires i < |lines|
    ensures i < e <= |lines|
  {
    SpanEnd(g, lines, i + 1, Unclosed(f.mark, f.length))
  }

  function FenceStep(g: Grammar, lines: seq<Line>, i: nat, f: MarkdownText.FenceMark): (r: Step)
    requires i < |lines|
    ensures i < r.end <= |lines|
  {
    var close := FenceClose(g, lines, i, f);
    if close == |lines| then Step(Leaf(Unsupported(lines[i].number, UnterminatedFence)), close)
    else Step(Leaf(Code(lines[i].number, f.info, Join(FenceBody(g, lines, i + 1, close, f.indent)))), close + 1)
  }

  // ---- paragraphs

  datatype ParaStop = ParaStop(end: nat, setext: bool)

  /** Where the lines that continue a paragraph end, from `i` on, and whether a setext underline stops it there. */
  function ParaEnd(g: Grammar, lines: seq<Line>, i: nat): (r: ParaStop)
    requires i <= |lines|
    ensures i <= r.end <= |lines| && (r.setext ==> r.end < |lines|)
    decreases |lines| - i
  {
    if i == |lines| || g(lines[i].text).blank then ParaStop(i, false)
    else if g(lines[i].text).setext then ParaStop(i, true)
    else if g(lines[i].text).interrupts then ParaStop(i, false)
    else ParaEnd(g, lines, i + 1)
  }

  function LStripped(g: Grammar, lines: seq<Line>, i: nat, j: nat): (r: seq<string>)
    requires i <= j <= |lines|
    ensures |r| == j - i
    decreases j - i
  {
    if i == j then [] else LStripped(g, lines, i, j - 1) + [g(lines[j - 1].text).lstripped]
  }

  /** The lines joined, the last one stripped at its end. */
  function ParaText(g: Grammar, parts: seq<string>): string
    requires parts != []
  {
    var last := g(parts[|parts| - 1]).rstripped;
    if |parts| == 1 then last else Join(parts[..|parts| - 1]) + ['\n'] + last
  }

  function ParaStep(g: Grammar, lines: seq<Line>, i: nat): (r: Step)
    requires i < |lines|
    ensures i < r.end <= |lines|
  {
    var stop := ParaEnd(g, lines, i + 1);
    if stop.setext then Step(Leaf(Unsupported(lines[i].number, SetextHeading)), stop.end + 1)
    else Step(Leaf(Para(lines[i].number, ParaText(g, LStripped(g, lines, i, stop.end)))), stop.end)
  }

  // ---- tables

  predicate IsTableStart(g: Grammar, lines: seq<Line>, i: nat) {
    && i + 1 < |lines|
    && g(lines[i].text).pipe && g(lines[i + 1].text).pipe
    && g(lines[i + 1].text).delimiterRow
    && |g(lines[i].text).cells| == |g(lines[i + 1].text).cells|
  }

  function TableEnd(g: Grammar, lines: seq<Line>, i: nat): (e: nat)
    requires i + 1 < |lines|
    ensures i + 2 <= e <= |lines|
  {
    SpanEnd(g, lines, i + 2, TableRows)
  }

  function AlignmentOf(cell: string): Alignment {
    var left, right := cell != [] && cell[0] == ':', cell != [] && cell[|cell| - 1] == ':';
    if left && right then Center else if left then Left else if right then Right else Plain
  }

  function Alignments(cells: seq<string>): seq<Alignment> {
    if cells == [] then [] else Alignments(cells[..|cells| - 1]) + [AlignmentOf(cells[|cells| - 1])]
  }

  function Rows(g: Grammar, lines: seq<Line>, i: nat, j: nat): seq<seq<string>>
    requires i <= j <= |lines|
    decreases j - i
  {
    if i == j then [] else Rows(g, lines, i, j - 1) + [g(lines[j - 1].text).cells]
  }

  function Numbers(lines: seq<Line>, i: nat, j: nat): seq<int>
    requires i <= j <= |lines|
    decreases j - i
  {
    if i == j then [] else Numbers(lines, i, j - 1) + [lines[j - 1].number]
  }

  /** The first row from `i` to before `j` whose cell count is not `width`. */
  function BadRow(g: Grammar, lines: seq<Line>, i: nat, j: nat, width: nat): (r: Option<nat>)
    requires i <= j <= |lines|
    ensures r.Some? ==> i <= r.value < j
    decreases j - i
  {
    if i == j then None
    else
      match BadRow(g, lines, i, j - 1, width)
      case Some(k) => Some(k)
      case None => if |g(lines[j - 1].text).cells| != width then Some(j - 1) else None
  }

  function TableStep(g: Grammar, lines: seq<Line>, i: nat): (r: Step)
    requires i + 1 < |lines|
    ensures i < r.end <= |lines|
  {
    var header, end := g(lines[i].text).cells, TableEnd(g, lines, i);
    match BadRow(g, lines, i + 2, end, |header|)
    case Some(k) => Step(Leaf(Unsupported(lines[k].number, BadTableRow)), end)
    case None => Step(Leaf(Table(lines[i].number, header, Alignments(g(lines[i + 1].text).cells),
                                 Rows(g, lines, i + 2, end), Numbers(lines, i + 2, end))), end)
  }

  // ---- quotes

  /** The lines from `i` to before `j` without their quote markers. */
  function Unquoted(g: Grammar, lines: seq<Line>, i: nat, j: nat): (r: seq<Line>)
    requires i <= j <= |lines|
    ensures |r| == j - i
    decreases j - i
  {
    if i == j then [] else Unquoted(g, lines, i, j - 1) + [Line(lines[j - 1].number, g(lines[j - 1].text).unquoted)]
  }

  /** The marked lines of a quote end here. */
  function QuoteStop(g: Grammar, lines: seq<Line>, i: nat): (e: nat)
    requires i < |lines| && g(lines[i].text).quote
    ensures i < e <= |lines|
  {
    SpanEnd(g, lines, i, Quoted)
  }

  function QuoteLines(g: Grammar, lines: seq<Line>, i: nat): (r: seq<Line>)
    requires i < |lines| && g(lines[i].text).quote
    ensures |r| == QuoteStop(g, lines, i) - i
  {
    Unquoted(g, lines, i, QuoteStop(g, lines, i))
  }

  lemma {:induction false} UnquotedShrinks(g: Grammar, lines: seq<Line>, i: nat, j: nat)
    requires i <= j <= |lines| && forall k :: i <= k < j ==> g(lines[k].text).quote
    ensures Size(Unquoted(g, lines, i, j)) + (j - i) <= SizeRange(lines, i, j)
    decreases j - i
  {
    if i < j {
      UnquotedShrinks(g, lines, i, j - 1);
      SizeNext(Unquoted(g, lines, i, j - 1), Line(lines[j - 1].number, g(lines[j - 1].text).unquoted));
    }
  }

  lemma {:induction false} QuoteShrinks(g: Grammar, lines: seq<Line>, i: nat)
    requires i < |lines| && g(lines[i].text).quote
    ensures Size(QuoteLines(g, lines, i)) < SizeRange(lines, i, QuoteStop(g, lines, i))
  {
    SpanIs(g, lines, i, Quoted);
    UnquotedShrinks(g, lines, i, QuoteStop(g, lines, i));
  }

  /** A line after the quote that would lazily continue its last paragraph. */
  predicate IsLazy(g: Grammar, lines: seq<Line>, i: nat)
    requires i < |lines| && g(lines[i].text).quote
  {
    var stop := QuoteStop(g, lines, i);
    && stop < |lines| && !g(lines[stop].text).blank && !g(lines[stop].text).interrupts
    && !g(g(lines[stop - 1].text).unquoted).blank
  }

  // ---- lists

  predicate ContinuesList(g: Grammar, s: string, ordered: bool, kind: char) {
    var m := g(s).item;
    m.Some? && !g(s).rule && MarkdownText.IsOrdered(m.value) == ordered && MarkdownText.ListKind(m.value) == kind
  }

  /** Column at which the content of an item starts, and its first line. */
  function ItemStart(g: Grammar, s: string, m: MarkdownText.ListMark): (r: (nat, string))
    requires g(s).item == Some(m)
    ensures r.0 >= 1 && |r.1| < |s|
  {
    if g(m.rest).blank then (m.indent + |m.marker| + 1, "")
    else if m.spaces > 4 then (m.indent + |m.marker| + 1, s[m.indent + |m.marker| + 1..])
    else (m.indent + |m.marker| + m.spaces, m.rest)
  }

  function Blanked(lines: seq<Line>, i: nat, j: nat): (r: seq<Line>)
    requires i <= j <= |lines|
    ensures |r| == j - i
    decreases j - i
  {
    if i == j then [] else Blanked(lines, i, j - 1) + [Line(lines[j - 1].number, "")]
  }

  lemma {:induction false} SizeBlanked(lines: seq<Line>, i: nat, j: nat)
    requires i <= j <= |lines|
    ensures Size(Blanked(lines, i, j)) <= SizeRange(lines, i, j)
    decreases j - i
  {
    if i < j {
      SizeBlanked(lines, i, j - 1);
      SizeNext(Blanked(lines, i, j - 1), Line(lines[j - 1].number, ""));
    }
  }

  /** What the lines from `i` on add to an item, one line for each they consume: blank lines before more content of the
      item, an indented line, or a lazy continuation; nothing when the item ends here. */
  function NextInItem(g: Grammar, lines: seq<Line>, i: nat, column: nat, previous: string): (more: seq<Line>)
    requires i <= |lines|
    ensures |more| <= |lines| - i
  {
    if i == |lines| then []
    else
      var number, text := lines[i].number, lines[i].text;
      if g(text).blank then
        var n := SpanEnd(g, lines, i, Blanks);
        if n < |lines| && g(lines[n].text).indent >= column then Blanked(lines, i, n) else []
      else if g(text).indent >= column then [Line(number, text[column..])]
      else if !g(previous).blank && g(previous).fence.None? && g(text).item.None? && !g(text).interrupts
              && !IsTableStart(g, lines, i) then [Line(number, g(text).lstripped)]
      else []
  }

  /** The lines of an item from `i` on; as many lines are consumed. */
  function ItemRest(g: Grammar, lines: seq<Line>, i: nat, column: nat, previous: string): (r: seq<Line>)
    requires i <= |lines|
    ensures |r| <= |lines| - i
    decreases |lines| - i, 1
  {
    ItemFrom(g, lines, NextInItem(g, lines, i, column, previous), i, column)
  }

  /** The lines of an item that begin with `more` at `i`. */
  function ItemFrom(g: Grammar, lines: seq<Line>, more: seq<Line>, i: nat, column: nat): (r: seq<Line>)
    requires i + |more| <= |lines|
    ensures |more| <= |r| <= |lines| - i
    decreases |lines| - i, 0
  {
    if more == [] then [] else more + ItemRest(g, lines, i + |more|, column, more[|more| - 1].text)
  }

  lemma {:induction false} NextFits(g: Grammar, lines: seq<Line>, i: nat, column: nat, previous: string)
    requires i <= |lines|
    ensures Fits(NextInItem(g, lines, i, column, previous), lines, i)
  {
    var more := NextInItem(g, lines, i, column, previous);
    if i < |lines| && more != [] {
      if g(lines[i].text).blank {
        SizeBlanked(lines, i, SpanEnd(g, lines, i, Blanks));
      } else {
        RangeOfOne(more, 0);
        RangeOfOne(lines, i);
      }
    }
  }

  lemma {:induction false} ItemFits(g: Grammar, lines: seq<Line>, i: nat, column: nat, previous: string)
    requires i <= |lines|
    ensures Fits(ItemRest(g, lines, i, column, previous), lines, i)
    decreases |lines| - i, 1
  {
    NextFits(g, lines, i, column, previous);
    ItemFromFits(g, lines, NextInItem(g, lines, i, column, previous), i, column);
  }

  lemma {:induction false} ItemFromFits(g: Grammar, lines: seq<Line>, more: seq<Line>, i: nat, column: nat)
    requires Fits(more, lines, i)
    ensures Fits(ItemFrom(g, lines, more, i, column), lines, i)
    decreases |lines| - i, 0
  {
    if more != [] {
      ItemFits(g, lines, i + |more|, column, more[|more| - 1].text);
      FitsConcat(more, ItemRest(g, lines, i + |more|, column, more[|more| - 1].text), lines, i);
    }
  }

  /** All lines of the item that starts at `i`, unindented; as many lines are consumed. */
  function ItemLines(g: Grammar, lines: seq<Line>, i: nat): (r: seq<Line>)
    requires i < |lines| && g(lines[i].text).item.Some?
    ensures 1 <= |r| <= |lines| - i
  {
    var start := ItemStart(g, lines[i].text, g(lines[i].text).item.value);
    ItemFrom(g, lines, [Line(lines[i].number, start.1)], i, start.0)
  }

  lemma {:induction false} FitsCons(first: seq<Line>, rest: seq<Line>, lines: seq<Line>, i: nat)
    requires i < |lines| && |first| == 1 && |first[0].text| < |lines[i].text| && Fits(rest, lines, i + 1)
    ensures Size(first + rest) < SizeRange(lines, i, i + 1 + |rest|)
  {
    SizeConcat(first, rest);
    RangeOfOne(first, 0);
    RangeOfOne(lines, i);
    RangeSplit(lines, i, i + 1, i + 1 + |rest|);
  }

  lemma {:induction false} ItemShrinks(g: Grammar, lines: seq<Line>, i: nat)
    requires i < |lines| && g(lines[i].text).item.Some?
    ensures Size(ItemLines(g, lines, i)) < SizeRange(lines, i, i + |ItemLines(g, lines, i)|)
  {
    var start := ItemStart(g, lines[i].text, g(lines[i].text).item.value);
    var rest := ItemRest(g, lines, i + 1, start.0, start.1);
    ItemFits(g, lines, i + 1, start.0, start.1);
    FitsCons([Line(lines[i].number, start.1)], rest, lines, i);
    assert i + |ItemLines(g, lines, i)| == i + 1 + |rest|;
  }

  function GroupsWeight(groups: seq<seq<Line>>): nat {
    if groups == [] then 0 else Size(groups[0]) + 1 + GroupsWeight(groups[1..])
  }

  lemma {:induction false} GroupsWeightCons(group: seq<Line>, groups: seq<seq<Line>>)
    ensures GroupsWeight([group] + groups) == Size(group) + 1 + GroupsWeight(groups)
  {
    assert ([group] + groups)[1..] == groups;
  }

  /** Where the next item of the same list starts after one that ends before `end`, blank lines passed over. */
  function NextItem(g: Grammar, lines: seq<Line>, end: nat, ordered: bool, kind: char): (r: Option<nat>)
    requires end <= |lines|
    ensures r.Some? ==> end <= r.value < |lines| && ContinuesList(g, lines[r.value].text, ordered, kind)
  {
    var gap := SpanEnd(g, lines, end, Blanks);
    if gap < |lines| && ContinuesList(g, lines[gap].text, ordered, kind) then Some(gap) else None
  }

  /** A list: the lines of each of its items, and where it ends. */
  datatype ListSpan = ListSpan(groups: seq<seq<Line>>, end: nat)

  function ListAt(g: Grammar, lines: seq<Line>, i: nat, ordered: bool, kind: char): (r: ListSpan)
    requires i < |lines| && ContinuesList(g, lines[i].text, ordered, kind)
    ensures i < r.end <= |lines|
    decreases |lines| - i, 1
  {
    ListFrom(g, lines, ItemLines(g, lines, i), i + |ItemLines(g, lines, i)|, ordered, kind)
  }

  /** The list with an item that ends before `end`. */
  function ListFrom(g: Grammar, lines: seq<Line>, item: seq<Line>, end: nat, ordered: bool, kind: char): (r: ListSpan)
    requires end <= |lines|
    ensures end <= r.end <= |lines|
    decreases |lines| - end, 2
  {
    match NextItem(g, lines, end, ordered, kind)
    case None => ListSpan([item], end)
    case Some(gap) => var rest := ListAt(g, lines, gap, ordered, kind); ListSpan([item] + rest.groups, rest.end)
  }

  lemma {:induction false} WeighsCons(item: seq<Line>, groups: seq<seq<Line>>, lines: seq<Line>, i: nat, j: nat, k: nat)
    requires i + |item| <= j <= k <= |lines|
    requires Size(item) < SizeRange(lines, i, i + |item|) && GroupsWeight(groups) <= SizeRange(lines, j, k)
    ensures GroupsWeight([item] + groups) <= SizeRange(lines, i, k)
  {
    GroupsWeightCons(item, groups);
    RangeSplit(lines, i, i + |item|, j);
    RangeSplit(lines, i, j, k);
  }

  ghost predicate ListFits(list: ListSpan, lines: seq<Line>, i: nat) {
    i <= list.end <= |lines| && GroupsWeight(list.groups) <= SizeRange(lines, i, list.end)
  }

  lemma {:induction false} ListWeighs(g: Grammar, lines: seq<Line>, i: nat, ordered: bool, kind: char)
    requires i < |lines| && ContinuesList(g, lines[i].text, ordered, kind)
    ensures ListFits(ListAt(g, lines, i, ordered, kind), lines, i)
    decreases |lines| - i, 1
  {
    ItemShrinks(g, lines, i);
    ListFromWeighs(g, lines, ItemLines(g, lines, i), i, ordered, kind);
  }

  lemma {:induction false} ListFromWeighs(g: Grammar, lines: seq<Line>, item: seq<Line>, i: nat, ordered: bool, kind: char)
    requires item != [] && i + |item| <= |lines| && Size(item) < SizeRange(lines, i, i + |item|)
    ensures ListFits(ListFrom(g, lines, item, i + |item|, ordered, kind), lines, i)
    decreases |lines| - i, 0
  {
    var next := NextItem(g, lines, i + |item|, ordered, kind);
    if next.None? {
      WeighsCons(item, [], lines, i, i + |item|, i + |item|);
    } else {
      ListWeighs(g, lines, next.value, ordered, kind);
      var rest := ListAt(g, lines, next.value, ordered, kind);
      WeighsCons(item, rest.groups, lines, i, next.value, rest.end);
    }
  }

  function ListStart(m: MarkdownText.ListMark): nat {
    var digits := if m.marker == [] then [] else m.marker[..|m.marker| - 1];
    if MarkdownText.IsOrdered(m) && MarkdownText.All(digits, MarkdownText.IsDigit) then MarkdownText.Number(digits) else 1
  }

  // ---- the whole text

  datatype Chunk =
    | Gap
    | Leaf(block: Block)
    | QuoteChunk(line: int, inner: seq<Line>, lazy: Option<int>)
    | ListChunk(line: int, ordered: bool, start: nat, groups: seq<seq<Line>>)

  datatype Step = Step(chunk: Chunk, end: nat)

  function QuoteStep(g: Grammar, lines: seq<Line>, i: nat): (r: Step)
    requires i < |lines| && g(lines[i].text).quote
    ensures i < r.end <= |lines|
  {
    var stop := QuoteStop(g, lines, i);
    if IsLazy(g, lines, i) then Step(QuoteChunk(lines[i].number, QuoteLines(g, lines, i), Some(lines[stop].number)), stop + 1)
    else Step(QuoteChunk(lines[i].number, QuoteLines(g, lines, i), None), stop)
  }

  function ListStep(g: Grammar, lines: seq<Line>, i: nat, m: MarkdownText.ListMark): (r: Step)
    requires i < |lines| && g(lines[i].text).item == Some(m) && !g(lines[i].text).rule
    ensures i < r.end <= |lines|
  {
    var list := ListAt(g, lines, i, MarkdownText.IsOrdered(m), MarkdownText.ListKind(m));
    Step(ListChunk(lines[i].number, MarkdownText.IsOrdered(m), ListStart(m), list.groups), list.end)
  }

  /** The construct at line `i` and where it ends, in the order in which the parser asks. */
  function StepAt(g: Grammar, lines: seq<Line>, i: nat): (r: Step)
    requires i < |lines|
    ensures i < r.end <= |lines|
  {
    var number, f := lines[i].number, g(lines[i].text);
    if f.blank then Step(Gap, i + 1)
    else if f.indent >= 4 then Step(Leaf(Unsupported(number, IndentedCode)), SpanEnd(g, lines, i, Indented))
    else if f.fence.Some? then FenceStep(g, lines, i, f.fence.value)
    else if f.heading.Some? then Step(Leaf(Heading(number, f.heading.value.level, f.heading.value.text)), i + 1)
    else if f.rule then Step(Leaf(Rule(number)), i + 1)
    else if f.quote then QuoteStep(g, lines, i)
    else if f.item.Some? then ListStep(g, lines, i, f.item.value)
    else if f.reference then Step(Leaf(Unsupported(number, ReferenceDefinition)), i + 1)
    else if f.html then Step(Leaf(Unsupported(number, RawHtml)), SpanEnd(g, lines, i, Filled))
    else if IsTableStart(g, lines, i) then TableStep(g, lines, i)
    else ParaStep(g, lines, i)
  }

  /** The chunks from line `i` on. */
  function Chunks(g: Grammar, lines: seq<Line>, i: nat): seq<Chunk>
    requires i <= |lines|
    decreases |lines| - i, 1
  {
    if i == |lines| then [] else ChunksFrom(g, lines, StepAt(g, lines, i))
  }

  function ChunksFrom(g: Grammar, lines: seq<Line>, step: Step): seq<Chunk>
    requires step.end <= |lines|
    decreases |lines| - step.end, 2
  {
    [step.chunk] + Chunks(g, lines, step.end)
  }

  /** Room the inner lines of a chunk take, counted so that parsing them again gets smaller. */
  function Weight(c: Chunk): nat {
    match c
    case QuoteChunk(_, inner, _) => Size(inner) + 1
    case ListChunk(_, _, _, groups) => GroupsWeight(groups)
    case _ => 0
  }

  function TotalWeight(chunks: seq<Chunk>): nat {
    if chunks == [] then 0 else Weight(chunks[0]) + TotalWeight(chunks[1..])
  }

  lemma {:induction false} TotalWeightCons(c: Chunk, chunks: seq<Chunk>)
    ensures TotalWeight([c] + chunks) == Weight(c) + TotalWeight(chunks)
  {
    assert ([c] + chunks)[1..] == chunks;
  }

  lemma {:induction false} StepWeighs(g: Grammar, lines: seq<Line>, i: nat)
    requires i < |lines|
    ensures Weight(StepAt(g, lines, i).chunk) <= SizeRange(lines, i, StepAt(g, lines, i).end)
  {
    var step, f := StepAt(g, lines, i), g(lines[i].text);
    if step.chunk.QuoteChunk? {
      QuoteShrinks(g, lines, i);
      RangeSplit(lines, i, QuoteStop(g, lines, i), step.end);
    } else if step.chunk.ListChunk? {
      ListWeighs(g, lines, i, MarkdownText.IsOrdered(f.item.value), MarkdownText.ListKind(f.item.value));
    }
  }

  /** The nested lines of all chunks together are fewer characters than the text: parsing them again terminates. */
  lemma {:induction false} ChunksWeigh(g: Grammar, lines: seq<Line>, i: nat)
    requires i <= |lines|
    ensures TotalWeight(Chunks(g, lines, i)) <= SizeRange(lines, i, |lines|)
    decreases |lines| - i, 1
  {
    if i < |lines| {
      StepWeighs(g, lines, i);
      ChunksFromWeigh(g, lines, i, StepAt(g, lines, i));
    }
  }

  lemma {:induction false} ChunksFromWeigh(g: Grammar, lines: seq<Line>, i: nat, step: Step)
    requires i < step.end <= |lines| && Weight(step.chunk) <= SizeRange(lines, i, step.end)
    ensures TotalWeight(ChunksFrom(g, lines, step)) <= SizeRange(lines, i, |lines|)
    decreases |lines| - i, 0
  {
    ChunksWeigh(g, lines, step.end);
    TotalWeightCons(step.chunk, Chunks(g, lines, step.end));
    RangeSplit(lines, i, step.end, |lines|);
  }
}
