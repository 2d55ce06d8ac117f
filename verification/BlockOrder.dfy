/** Where parsed blocks stand: at every nesting level they occupy disjoint line ranges in order, a paragraph or code
    block has room for all its lines, and nothing but blank lines goes unparsed. */
module BlockOrder {
  import opened Results
  import opened MarkdownChunks
  import opened MarkdownBlocks
  import MarkdownText

  /** Lines numbered from `first` on, none with a newline. */
  ghost predicate Consecutive(lines: seq<Line>, first: int) {
    forall i :: 0 <= i < |lines| ==> lines[i].number == first + i && OneLine(lines[i].text)
  }

  function Newlines(s: string): nat {
    MarkdownText.Count(s, '\n')
  }

  // ---- the property

  /** The blocks own disjoint line ranges in order, all within `lo` to `hi`, and whatever is nested in a block stays
      within the block's range, placed the same way. */
  ghost predicate Placed(blocks: seq<Block>, lo: int, hi: int)
    decreases blocks
  {
    if blocks == [] then lo <= hi
    else exists end :: PlacedFirst(blocks[0], lo, end) && end <= hi && Placed(blocks[1..], end, hi)
  }

  ghost predicate PlacedFirst(b: Block, lo: int, end: int)
    decreases b
  {
    && lo <= b.line < end
    && match b
       case Para(line, text) => line + Newlines(text) < end
       case Code(line, _, text) => line + 1 + Newlines(text) < end
       case Table(line, _, _, rows, rowLines) =>
         && |rows| == |rowLines| && line + 2 + |rowLines| <= end
         && forall k :: 0 <= k < |rowLines| ==> rowLines[k] == line + 2 + k
       case Quote(line, blocks, _) => Placed(blocks, line, end)
       case ListBlock(line, _, _, items) => ItemsPlaced(items, line, end)
       case _ => true
  }

  ghost predicate ItemsPlaced(items: seq<Item>, lo: int, hi: int)
    decreases items
  {
    if items == [] then lo <= hi
    else exists end :: Placed(items[0].blocks, lo, end) && end <= hi && ItemsPlaced(items[1..], end, hi)
  }

  lemma {:induction false} PlacedBounds(blocks: seq<Block>, lo: int, hi: int)
    requires Placed(blocks, lo, hi)
    ensures lo <= hi
  {
    if blocks != [] {
      var end :| PlacedFirst(blocks[0], lo, end) && end <= hi && Placed(blocks[1..], end, hi);
      assert lo <= blocks[0].line < end;
    }
  }

  lemma {:induction false} PlacedWider(blocks: seq<Block>, lo: int, hi: int, lo': int, hi': int)
    requires Placed(blocks, lo, hi) && lo' <= lo && hi <= hi'
    ensures Placed(blocks, lo', hi')
  {
    if blocks != [] {
      var end :| PlacedFirst(blocks[0], lo, end) && end <= hi && Placed(blocks[1..], end, hi);
      PlacedWider(blocks[1..], end, hi, end, hi');
      assert PlacedFirst(blocks[0], lo', end);
    }
  }

  lemma {:induction false} PlacedConcat(a: seq<Block>, b: seq<Block>, lo: int, mid: int, hi: int)
    requires Placed(a, lo, mid) && Placed(b, mid, hi)
    ensures Placed(a + b, lo, hi)
  {
    PlacedBounds(b, mid, hi);
    if a == [] {
      assert a + b == b;
      PlacedWider(b, mid, hi, lo, hi);
    } else {
      var end :| PlacedFirst(a[0], lo, end) && end <= mid && Placed(a[1..], end, mid);
      PlacedConcat(a[1..], b, end, mid, hi);
      assert (a + b)[1..] == a[1..] + b;
    }
  }

  lemma {:induction false} PlacedOne(b: Block, lo: int, hi: int)
    requires PlacedFirst(b, lo, hi)
    ensures Placed([b], lo, hi)
  {
    assert [b][1..] == [] && Placed([b][1..], hi, hi);
  }

  lemma {:induction false} PlacedHead(blocks: seq<Block>, lo: int, hi: int) returns (end: int)
    requires Placed(blocks, lo, hi) && blocks != []
    ensures PlacedFirst(blocks[0], lo, end) && end <= hi && Placed(blocks[1..], end, hi)
  {
    end :| PlacedFirst(blocks[0], lo, end) && end <= hi && Placed(blocks[1..], end, hi);
  }

  /** Another first block may take the place of one with the same range. */
  lemma {:induction false} PlacedSwap(blocks: seq<Block>, b: Block, lo: int, end: int, hi: int)
    requires blocks != [] && PlacedFirst(b, lo, end) && Placed(blocks[1..], end, hi)
    ensures Placed([b] + blocks[1..], lo, hi)
  {
    PlacedOne(b, lo, end);
    PlacedConcat([b], blocks[1..], lo, end, hi);
  }

  /** Placed blocks have strictly increasing line numbers within the bounds. */
  lemma {:induction false} PlacedIncreases(blocks: seq<Block>, lo: int, hi: int)
    requires Placed(blocks, lo, hi)
    ensures forall i :: 0 <= i < |blocks| ==> lo <= blocks[i].line < hi
    ensures forall i, j :: 0 <= i < j < |blocks| ==> blocks[i].line < blocks[j].line
  {
    if blocks != [] {
      var end := PlacedHead(blocks, lo, hi);
      PlacedIncreases(blocks[1..], end, hi);
      PlacedBounds(blocks[1..], end, hi);
      assert forall i :: 1 <= i < |blocks| ==> blocks[i] == blocks[1..][i - 1];
    }
  }

  lemma {:induction false} ItemsPlacedBounds(items: seq<Item>, lo: int, hi: int)
    requires ItemsPlaced(items, lo, hi)
    ensures lo <= hi
  {
    if items != [] {
      var end :| Placed(items[0].blocks, lo, end) && end <= hi && ItemsPlaced(items[1..], end, hi);
      PlacedBounds(items[0].blocks, lo, end);
    }
  }

  lemma {:induction false} ItemsPlacedCons(item: Item, items: seq<Item>, lo: int, end: int, mid: int, hi: int)
    requires Placed(item.blocks, lo, end) && end <= mid && ItemsPlaced(items, mid, hi)
    ensures ItemsPlaced([item] + items, lo, hi)
  {
    PlacedWider(item.blocks, lo, end, lo, mid);
    ItemsPlacedBounds(items, mid, hi);
    assert ([item] + items)[1..] == items;
  }

  // ---- newlines in joined text

  lemma {:induction false} NewlinesConcat(a: string, b: string)
    ensures Newlines(a + b) == Newlines(a) + Newlines(b)
  {
    if a == [] { assert a + b == b; }
    else {
      NewlinesConcat(a[1..], b);
      assert (a + b)[1..] == a[1..] + b;
    }
  }

  lemma {:induction false} NoNewlines(s: string)
    ensures OneLine(s) ==> Newlines(s) == 0
  {
    if s != [] { NoNewlines(s[1..]); }
  }

  lemma {:induction false} NewlinesJoin(parts: seq<string>)
    requires parts != [] && forall k :: 0 <= k < |parts| ==> OneLine(parts[k])
    ensures Newlines(Join(parts)) == |parts| - 1
  {
    var last := parts[|parts| - 1];
    NoNewlines(last);
    if |parts| > 1 {
      var front := parts[..|parts| - 1];
      NewlinesJoin(front);
      NewlinesConcat(Join(front) + ['\n'], last);
      NewlinesConcat(Join(front), ['\n']);
    }
  }

  lemma {:induction false} NewlinesPara(g: Grammar, parts: seq<string>)
    requires parts != [] && forall k :: 0 <= k < |parts| ==> OneLine(parts[k])
    ensures Newlines(ParaText(g, parts)) == |parts| - 1
  {
    var last := g(parts[|parts| - 1]).rstripped;
    NoNewlines(last);
    if |parts| > 1 {
      var front := parts[..|parts| - 1];
      NewlinesJoin(front);
      NewlinesConcat(Join(front) + ['\n'], last);
      NewlinesConcat(Join(front), ['\n']);
    }
  }

  lemma {:induction false} NewlinesAfterFirst(s: string)
    ensures AfterFirstLine(s) != "" ==> Newlines(AfterFirstLine(s)) + 1 == Newlines(s)
  {
    var n := MarkdownText.Run(s, c => c != '\n');
    if n < |s| {
      NoNewlines(s[..n]);
      NewlinesConcat(s[..n], s[n..]);
      assert s == s[..n] + s[n..];
      assert s[n..][1..] == s[n + 1..];
    }
  }

  lemma {:induction false} NewlinesSuffix(s: string, k: nat)
    requires k <= |s|
    ensures Newlines(s[k..]) <= Newlines(s)
  {
    NewlinesConcat(s[..k], s[k..]);
    assert s == s[..k] + s[k..];
  }

  // ---- nested lines keep their numbers

  lemma {:induction false} UnquotedNumbered(g: Grammar, lines: seq<Line>, i: nat, j: nat, first: int)
    requires i <= j <= |lines| && Consecutive(lines, first)
    ensures Consecutive(Unquoted(g, lines, i, j), first + i)
    decreases j - i
  {
    if i < j { UnquotedNumbered(g, lines, i, j - 1, first); }
  }

  lemma {:induction false} BlankedNumbered(lines: seq<Line>, i: nat, j: nat, first: int)
    requires i <= j <= |lines| && Consecutive(lines, first)
    ensures Consecutive(Blanked(lines, i, j), first + i)
    decreases j - i
  {
    if i < j { BlankedNumbered(lines, i, j - 1, first); }
  }

  lemma {:induction false} NumberedConcat(a: seq<Line>, b: seq<Line>, first: int)
    requires Consecutive(a, first) && Consecutive(b, first + |a|)
    ensures Consecutive(a + b, first)
  {
  }

  lemma {:induction false} NextNumbered(g: Grammar, lines: seq<Line>, i: nat, column: nat, previous: string, first: int)
    requires i <= |lines| && Consecutive(lines, first)
    ensures Consecutive(NextInItem(g, lines, i, column, previous), first + i)
  {
    if i < |lines| && g(lines[i].text).blank { BlankedNumbered(lines, i, SpanEnd(g, lines, i, Blanks), first); }
  }

  lemma {:induction false} ItemRestNumbered(g: Grammar, lines: seq<Line>, i: nat, column: nat, previous: string, first: int)
    requires i <= |lines| && Consecutive(lines, first)
    ensures Consecutive(ItemRest(g, lines, i, column, previous), first + i)
    decreases |lines| - i, 1
  {
    NextNumbered(g, lines, i, column, previous, first);
    ItemFromNumbered(g, lines, NextInItem(g, lines, i, column, previous), i, column, first);
  }

  lemma {:induction false} ItemFromNumbered(g: Grammar, lines: seq<Line>, more: seq<Line>, i: nat, column: nat, first: int)
    requires i + |more| <= |lines| && Consecutive(lines, first) && Consecutive(more, first + i)
    ensures Consecutive(ItemFrom(g, lines, more, i, column), first + i)
    decreases |lines| - i, 0
  {
    if more != [] {
      ItemRestNumbered(g, lines, i + |more|, column, more[|more| - 1].text, first);
      NumberedConcat(more, ItemRest(g, lines, i + |more|, column, more[|more| - 1].text), first + i);
    }
  }

  lemma {:induction false} ItemNumbered(g: Grammar, lines: seq<Line>, i: nat, first: int)
    requires i < |lines| && g(lines[i].text).item.Some? && Consecutive(lines, first)
    ensures Consecutive(ItemLines(g, lines, i), first + i)
  {
    var start := ItemStart(g, lines[i].text, g(lines[i].text).item.value);
    ItemFromNumbered(g, lines, [Line(lines[i].number, start.1)], i, start.0, first);
  }

  // ---- chunks

  /** Each group is numbered, and stands after the one before it, between `lo` and `hi`. */
  ghost predicate GroupsPlaced(groups: seq<seq<Line>>, lo: int, hi: int)
    decreases groups
  {
    if groups == [] then lo <= hi
    else exists mid :: Consecutive(groups[0], lo) && lo + |groups[0]| <= mid && GroupsPlaced(groups[1..], mid, hi)
  }

  ghost predicate ChunkPlaced(c: Chunk, lo: int, end: int) {
    match c
    case Gap => lo < end
    case Leaf(b) => PlacedFirst(b, lo, end)
    case QuoteChunk(line, inner, lazy) =>
      && line == lo && inner != [] && Consecutive(inner, lo)
      && (if lazy.Some? then lazy.value == lo + |inner| == end - 1 else lo + |inner| == end)
    case ListChunk(line, _, _, groups) => line == lo < end && GroupsPlaced(groups, lo, end)
  }

  ghost predicate ChunksPlaced(chunks: seq<Chunk>, lo: int, hi: int)
    decreases chunks
  {
    if chunks == [] then lo == hi
    else exists end :: ChunkPlaced(chunks[0], lo, end) && ChunksPlaced(chunks[1..], end, hi)
  }

  lemma {:induction false} GroupsCons(group: seq<Line>, groups: seq<seq<Line>>, lo: int, mid: int, hi: int)
    requires Consecutive(group, lo) && lo + |group| <= mid && GroupsPlaced(groups, mid, hi)
    ensures GroupsPlaced([group] + groups, lo, hi)
  {
    assert ([group] + groups)[1..] == groups;
  }

  lemma {:induction false} ChunksCons(c: Chunk, chunks: seq<Chunk>, lo: int, end: int, hi: int)
    requires ChunkPlaced(c, lo, end) && ChunksPlaced(chunks, end, hi)
    ensures ChunksPlaced([c] + chunks, lo, hi)
  {
    assert ([c] + chunks)[1..] == chunks;
  }

  ghost predicate ListPlaced(list: ListSpan, lo: int, first: int) {
    GroupsPlaced(list.groups, lo, first + list.end)
  }

  lemma {:induction false} ListNumbered(g: Grammar, lines: seq<Line>, i: nat, ordered: bool, kind: char, first: int)
    requires i < |lines| && ContinuesList(g, lines[i].text, ordered, kind) && Consecutive(lines, first)
    ensures ListPlaced(ListAt(g, lines, i, ordered, kind), first + i, first)
    decreases |lines| - i, 1
  {
    ItemNumbered(g, lines, i, first);
    ListFromNumbered(g, lines, ItemLines(g, lines, i), i, ordered, kind, first);
  }

  lemma {:induction false} ListFromNumbered(g: Grammar, lines: seq<Line>, item: seq<Line>, i: nat, ordered: bool,
                                            kind: char, first: int)
    requires item != [] && i + |item| <= |lines| && Consecutive(item, first + i) && Consecutive(lines, first)
    ensures ListPlaced(ListFrom(g, lines, item, i + |item|, ordered, kind), first + i, first)
    decreases |lines| - i, 0
  {
    var next := NextItem(g, lines, i + |item|, ordered, kind);
    if next.None? {
      GroupsCons(item, [], first + i, first + i + |item|, first + i + |item|);
      assert [item] + [] == [item];
    } else {
      ListNumbered(g, lines, next.value, ordered, kind, first);
      var rest := ListAt(g, lines, next.value, ordered, kind);
      GroupsCons(item, rest.groups, first + i, first + next.value, first + rest.end);
    }
  }

  lemma {:induction false} FenceBodyOneLine(g: Grammar, lines: seq<Line>, i: nat, j: nat, indent: nat, first: int)
    requires i <= j <= |lines| && Consecutive(lines, first)
    ensures |FenceBody(g, lines, i, j, indent)| == j - i
    ensures forall k :: 0 <= k < j - i ==> OneLine(FenceBody(g, lines, i, j, indent)[k])
    decreases j - i
  {
    if i < j { FenceBodyOneLine(g, lines, i, j - 1, indent, first); }
  }

  lemma {:induction false} FencePlaced(g: Grammar, lines: seq<Line>, i: nat, f: MarkdownText.FenceMark, first: int)
    requires i < |lines| && Consecutive(lines, first)
    ensures var step := FenceStep(g, lines, i, f); ChunkPlaced(step.chunk, first + i, first + step.end)
  {
    var close := FenceClose(g, lines, i, f);
    var body := FenceBody(g, lines, i + 1, close, f.indent);
    FenceBodyOneLine(g, lines, i + 1, close, f.indent, first);
    if body != [] { NewlinesJoin(body); }
  }

  lemma {:induction false} LStrippedOneLine(g: Grammar, lines: seq<Line>, i: nat, j: nat, first: int)
    requires i <= j <= |lines| && Consecutive(lines, first)
    ensures forall k :: 0 <= k < j - i ==> OneLine(LStripped(g, lines, i, j)[k])
    decreases j - i
  {
    if i < j { LStrippedOneLine(g, lines, i, j - 1, first); }
  }

  lemma {:induction false} ParaPlaced(g: Grammar, lines: seq<Line>, i: nat, first: int)
    requires i < |lines| && Consecutive(lines, first)
    ensures var step := ParaStep(g, lines, i); ChunkPlaced(step.chunk, first + i, first + step.end)
  {
    var end := ParaEnd(g, lines, i + 1).end;
    LStrippedOneLine(g, lines, i, end, first);
    NewlinesPara(g, LStripped(g, lines, i, end));
  }

  lemma {:induction false} NumbersPlaced(g: Grammar, lines: seq<Line>, i: nat, j: nat, first: int)
    requires i <= j <= |lines| && Consecutive(lines, first)
    ensures |Numbers(lines, i, j)| == j - i && |Rows(g, lines, i, j)| == j - i
    ensures forall k :: 0 <= k < j - i ==> Numbers(lines, i, j)[k] == first + i + k
    decreases j - i
  {
    if i < j { NumbersPlaced(g, lines, i, j - 1, first); }
  }

  lemma {:induction false} TablePlaced(g: Grammar, lines: seq<Line>, i: nat, first: int)
    requires i + 1 < |lines| && Consecutive(lines, first)
    ensures var step := TableStep(g, lines, i); ChunkPlaced(step.chunk, first + i, first + step.end)
  {
    NumbersPlaced(g, lines, i + 2, TableEnd(g, lines, i), first);
  }

  lemma {:induction false} QuotePlaced(g: Grammar, lines: seq<Line>, i: nat, first: int)
    requires i < |lines| && g(lines[i].text).quote && Consecutive(lines, first)
    ensures var step := QuoteStep(g, lines, i); ChunkPlaced(step.chunk, first + i, first + step.end)
  {
    UnquotedNumbered(g, lines, i, QuoteStop(g, lines, i), first);
  }

  lemma {:induction false} ListStepPlaced(g: Grammar, lines: seq<Line>, i: nat, m: MarkdownText.ListMark, first: int)
    requires i < |lines| && g(lines[i].text).item == Some(m) && !g(lines[i].text).rule && Consecutive(lines, first)
    ensures var step := ListStep(g, lines, i, m); ChunkPlaced(step.chunk, first + i, first + step.end)
  {
    ListNumbered(g, lines, i, MarkdownText.IsOrdered(m), MarkdownText.ListKind(m), first);
  }

  /** Every step consumes a non-empty range of lines, and its chunk stands in it. */
  lemma {:induction false} StepPlaced(g: Grammar, lines: seq<Line>, i: nat, first: int)
    requires i < |lines| && Consecutive(lines, first)
    ensures var step := StepAt(g, lines, i); ChunkPlaced(step.chunk, first + i, first + step.end)
  {
    var f := g(lines[i].text);
    if f.blank || f.indent >= 4 {
    } else if f.fence.Some? {
      FencePlaced(g, lines, i, f.fence.value, first);
    } else if f.heading.Some? || f.rule {
    } else if f.quote {
      QuotePlaced(g, lines, i, first);
    } else if f.item.Some? {
      ListStepPlaced(g, lines, i, f.item.value, first);
    } else if f.reference || f.html {
    } else if IsTableStart(g, lines, i) {
      TablePlaced(g, lines, i, first);
    } else {
      ParaPlaced(g, lines, i, first);
    }
  }

  lemma {:induction false} ChunksArePlaced(g: Grammar, lines: seq<Line>, i: nat, first: int)
    requires i <= |lines| && Consecutive(lines, first)
    ensures ChunksPlaced(Chunks(g, lines, i), first + i, first + |lines|)
    decreases |lines| - i, 1
  {
    if i < |lines| {
      StepPlaced(g, lines, i, first);
      ChunksFromPlaced(g, lines, i, StepAt(g, lines, i), first);
    }
  }

  lemma {:induction false} ChunksFromPlaced(g: Grammar, lines: seq<Line>, i: nat, step: Step, first: int)
    requires i < step.end <= |lines| && Consecutive(lines, first) && ChunkPlaced(step.chunk, first + i, first + step.end)
    ensures ChunksPlaced(ChunksFrom(g, lines, step), first + i, first + |lines|)
    decreases |lines| - i, 0
  {
    ChunksArePlaced(g, lines, step.end, first);
    ChunksCons(step.chunk, Chunks(g, lines, step.end), first + i, first + step.end, first + |lines|);
  }

  // ---- blocks

  /** Taking the alert marker off a first paragraph leaves the rest of it below its first line. */
  lemma {:induction false} AlertPlaced(g: Grammar, parsed: seq<Block>, lo: int, hi: int)
    requires Placed(parsed, lo, hi)
    ensures Placed(Alerted(g, parsed).0, lo, hi)
  {
    if parsed != [] && parsed[0].Para? {
      var end := PlacedHead(parsed, lo, hi);
      var line, more := parsed[0].line, AfterFirstLine(parsed[0].text);
      PlacedSwap(parsed, Unsupported(line, UnknownAlert), lo, end, hi);
      PlacedWider(parsed[1..], end, hi, lo, hi);
      NewlinesAfterFirst(parsed[0].text);
      if more != "" { PlacedSwap(parsed, Para(line + 1, more), lo, end, hi); }
    }
  }

  lemma {:induction false} TaskPlaced(g: Grammar, blocks: seq<Block>, lo: int, hi: int)
    requires Placed(blocks, lo, hi)
    ensures Placed(TaskItem(g, blocks).blocks, lo, hi)
  {
    if blocks != [] && blocks[0].Para? && g(blocks[0].text).taskMark.Some? {
      var end := PlacedHead(blocks, lo, hi);
      var k := Min(g(blocks[0].text).taskMark.value.1, |blocks[0].text|);
      NewlinesSuffix(blocks[0].text, k);
      PlacedSwap(blocks, Para(blocks[0].line, blocks[0].text[k..]), lo, end, hi);
    }
  }

  lemma {:induction false} ItemsArePlaced(g: Grammar, groups: seq<seq<Line>>, lo: int, hi: int)
    requires GroupsPlaced(groups, lo, hi)
    ensures ItemsPlaced(ItemsOf(g, groups), lo, hi)
    decreases GroupsWeight(groups), 0, |groups|
  {
    if groups != [] {
      var mid :| Consecutive(groups[0], lo) && lo + |groups[0]| <= mid && GroupsPlaced(groups[1..], mid, hi);
      ParsePlaced(g, groups[0], lo);
      TaskPlaced(g, Parse(g, groups[0]), lo, lo + |groups[0]|);
      ItemsArePlaced(g, groups[1..], mid, hi);
      ItemsPlacedCons(TaskItem(g, Parse(g, groups[0])), ItemsOf(g, groups[1..]), lo, lo + |groups[0]|, mid, hi);
    }
  }

  lemma {:induction false} BuildPlaced(g: Grammar, c: Chunk, lo: int, end: int)
    requires ChunkPlaced(c, lo, end)
    ensures Placed(Build(g, c), lo, end)
    decreases Weight(c), 1, 0
  {
    match c
    case Gap =>
    case Leaf(b) => PlacedOne(b, lo, end);
    case QuoteChunk(line, inner, lazy) =>
      ParsePlaced(g, inner, lo);
      AlertPlaced(g, Parse(g, inner), lo, lo + |inner|);
      var content := Alerted(g, Parse(g, inner));
      QuoteLazyPlaced(Quote(line, content.0, content.1), lazy, lo, lo + |inner|);
    case ListChunk(line, ordered, start, groups) =>
      ItemsArePlaced(g, groups, lo, end);
      PlacedOne(ListBlock(line, ordered, start, ItemsOf(g, groups)), lo, end);
  }

  lemma {:induction false} QuoteLazyPlaced(quote: Block, lazy: Option<int>, lo: int, mid: int)
    requires PlacedFirst(quote, lo, mid) && (lazy.Some? ==> lazy.value == mid)
    ensures Placed([quote] + (if lazy.Some? then [Unsupported(lazy.value, LazyContinuation)] else []), lo,
                   if lazy.Some? then mid + 1 else mid)
  {
    PlacedOne(quote, lo, mid);
    if lazy.Some? {
      PlacedOne(Unsupported(mid, LazyContinuation), mid, mid + 1);
      PlacedConcat([quote], [Unsupported(mid, LazyContinuation)], lo, mid, mid + 1);
    } else {
      assert [quote] + [] == [quote];
    }
  }

  lemma {:induction false} BuildAllPlaced(g: Grammar, chunks: seq<Chunk>, lo: int, hi: int)
    requires ChunksPlaced(chunks, lo, hi)
    ensures Placed(BuildAll(g, chunks), lo, hi)
    decreases TotalWeight(chunks), 2, |chunks|
  {
    if chunks != [] {
      var end :| ChunkPlaced(chunks[0], lo, end) && ChunksPlaced(chunks[1..], end, hi);
      BuildPlaced(g, chunks[0], lo, end);
      BuildAllPlaced(g, chunks[1..], end, hi);
      PlacedConcat(Build(g, chunks[0]), BuildAll(g, chunks[1..]), lo, end, hi);
    }
  }

  lemma {:induction false} ParsePlaced(g: Grammar, lines: seq<Line>, first: int)
    requires Consecutive(lines, first)
    ensures Placed(Parse(g, lines), first, first + |lines|)
    decreases Size(lines), 3, 0
  {
    ChunksWeigh(g, lines, 0);
    ChunksArePlaced(g, lines, 0, first);
    BuildAllPlaced(g, Chunks(g, lines, 0), first, first + |lines|);
  }

  /** Block lines strictly increase, within the text; `ParsePlaced` says the same at every nesting level. */
  lemma {:induction false} LinesIncrease(g: Grammar, lines: seq<Line>, first: int)
    requires Consecutive(lines, first)
    ensures var blocks := Parse(g, lines);
            && (forall k :: 0 <= k < |blocks| ==> first <= blocks[k].line < first + |lines|)
            && (forall k, m :: 0 <= k < m < |blocks| ==> blocks[k].line < blocks[m].line)
  {
    ParsePlaced(g, lines, first);
    PlacedIncreases(Parse(g, lines), first, first + |lines|);
  }

  // ---- nothing is lost

  ghost predicate AllGaps(chunks: seq<Chunk>) {
    forall k :: 0 <= k < |chunks| ==> chunks[k].Gap?
  }

  lemma {:induction false} NothingBuilt(g: Grammar, chunks: seq<Chunk>)
    ensures BuildAll(g, chunks) == [] <==> AllGaps(chunks)
  {
    if chunks != [] {
      NothingBuilt(g, chunks[1..]);
      assert chunks[0].Gap? <==> Build(g, chunks[0]) == [];
      assert forall k :: 1 <= k < |chunks| ==> chunks[k] == chunks[1..][k - 1];
    }
  }

  lemma {:induction false} GapsAreBlank(g: Grammar, lines: seq<Line>, i: nat)
    requires i <= |lines|
    ensures AllGaps(Chunks(g, lines, i)) <==> forall k :: i <= k < |lines| ==> g(lines[k].text).blank
    decreases |lines| - i
  {
    if i < |lines| {
      var step := StepAt(g, lines, i);
      GapsAreBlank(g, lines, step.end);
      var rest := Chunks(g, lines, step.end);
      assert Chunks(g, lines, i) == ChunksFrom(g, lines, step) == [step.chunk] + rest;
      assert step.chunk.Gap? <==> g(lines[i].text).blank;
      AllGapsCons(step.chunk, rest);
    }
  }

  lemma {:induction false} AllGapsCons(c: Chunk, chunks: seq<Chunk>)
    ensures AllGaps([c] + chunks) <==> c.Gap? && AllGaps(chunks)
  {
    if AllGaps([c] + chunks) {
      assert ([c] + chunks)[0] == c;
      assert forall k :: 0 <= k < |chunks| ==> chunks[k] == ([c] + chunks)[k + 1];
    }
  }

  /** A text parses to nothing exactly when every line of it is blank. */
  lemma {:induction false} EmptyIffBlank(g: Grammar, lines: seq<Line>)
    ensures Parse(g, lines) == [] <==> forall k :: 0 <= k < |lines| ==> g(lines[k].text).blank
  {
    NothingBuilt(g, Chunks(g, lines, 0));
    GapsAreBlank(g, lines, 0);
  }
}
