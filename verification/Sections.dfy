/** The section under a heading, found twice: as blocks, for the page, and as raw lines, for the review digest. Both
    find the same section, and the blocks are what its raw lines parse to on their own. */
module Sections {
  import opened Results
  import opened MarkdownChunks
  import opened MarkdownBlocks
  import opened BlockOrder
  import opened BlockLocality
  import MarkdownText

  datatype SectionError = NotFound | Ambiguous(matches: nat) | Empty | OtherTitle

  predicate Titled(b: Block, title: string) {
    b.Heading? && b.text == title
  }

  /** Positions of the headings with this text. */
  function Matches(blocks: seq<Block>, title: string): (r: seq<nat>)
    ensures forall k :: 0 <= k < |r| ==> r[k] < |blocks| && Titled(blocks[r[k]], title)
  {
    if blocks == [] then []
    else
      var front := blocks[..|blocks| - 1];
      Matches(front, title) + if Titled(blocks[|blocks| - 1], title) then [|blocks| - 1] else []
  }

  predicate Closes(b: Block, level: nat) {
    b.Heading? && b.level <= level
  }

  /** The first position from `i` on of a heading at this level or above. */
  function Stop(blocks: seq<Block>, i: nat, level: nat): (q: nat)
    requires i <= |blocks|
    ensures i <= q <= |blocks| && (q < |blocks| ==> Closes(blocks[q], level))
    decreases |blocks| - i
  {
    if i == |blocks| || Closes(blocks[i], level) then i else Stop(blocks, i + 1, level)
  }

  /** The position of the one heading with this text. */
  function TheMatch(blocks: seq<Block>, title: string): (r: Result<nat, SectionError>)
    ensures r.Ok? ==> r.value < |blocks| && Titled(blocks[r.value], title)
  {
    var matches := Matches(blocks, title);
    if matches == [] then Err(NotFound)
    else if |matches| > 1 then Err(Ambiguous(|matches|))
    else Ok(matches[0])
  }

  // ---- the two functions

  /** What an excerpt of a whole document leaves out: the title it begins with. */
  function Untitled(blocks: seq<Block>): seq<Block> {
    if blocks != [] && Closes(blocks[0], 1) && blocks[0].level == 1 then blocks[1..] else blocks
  }

  predicate HasTitle(blocks: seq<Block>) {
    exists k :: 0 <= k < |blocks| && blocks[k].Heading? && blocks[k].level == 1
  }

  function NonEmpty<T>(s: seq<T>): Result<seq<T>, SectionError> {
    if s == [] then Err(Empty) else Ok(s)
  }

  function ExcerptOf(blocks: seq<Block>, heading: Option<string>): Result<seq<Block>, SectionError> {
    match heading
    case None => if HasTitle(Untitled(blocks)) then Err(OtherTitle) else NonEmpty(Untitled(blocks))
    case Some(title) =>
      match TheMatch(blocks, title)
      case Err(e) => Err(e)
      case Ok(p) => NonEmpty(blocks[p + 1..Stop(blocks, p + 1, blocks[p].level)])
  }

  /** The first block after line `line` that is a heading at this level or above, by its line; `beyond` if there is none. */
  function EndLine(blocks: seq<Block>, line: int, level: nat, beyond: int): int {
    if blocks == [] then beyond
    else if Closes(blocks[0], level) && blocks[0].line > line then blocks[0].line
    else EndLine(blocks[1..], line, level, beyond)
  }

  predicate AllBlank(g: Grammar, lines: seq<Line>) {
    forall k :: 0 <= k < |lines| ==> g(lines[k].text).blank
  }

  /** Python's `s[from:to]`, for bounds that may lie outside. */
  function Slice<T>(s: seq<T>, from: int, to: int): seq<T> {
    var i := if from < 0 then 0 else if from > |s| then |s| else from;
    var j := if to < i then i else if to > |s| then |s| else to;
    s[i..j]
  }

  /** The lines below the heading, `blocks` being what the lines parse to. */
  function SectionText(g: Grammar, lines: seq<Line>, blocks: seq<Block>, title: string): Result<seq<Line>, SectionError> {
    match TheMatch(blocks, title)
    case Err(e) => Err(e)
    case Ok(p) =>
      var end := EndLine(blocks, blocks[p].line, blocks[p].level, |lines| + 1);
      var body := Slice(lines, blocks[p].line, end - 1);
      if AllBlank(g, body) then Err(Empty) else Ok(body)
  }

  // ---- as the loops they are

  method Excerpt(blocks: seq<Block>, heading: Option<string>) returns (r: Result<seq<Block>, SectionError>)
    ensures r == ExcerptOf(blocks, heading)
  {
    var section := blocks;
    if heading.None? {
      section := Untitled(blocks);
      for k := 0 to |section|
        invariant forall m :: 0 <= m < k ==> !(section[m].Heading? && section[m].level == 1)
      {
        if section[k].Heading? && section[k].level == 1 { return Err(OtherTitle); }
      }
    } else {
      var matches := Matches(blocks, heading.value);
      if matches == [] { return Err(NotFound); }
      if |matches| > 1 { return Err(Ambiguous(|matches|)); }
      var start := matches[0];
      var base := blocks[start].level;
      var end := |blocks|;
      for position := start + 1 to |blocks|
        invariant end == |blocks| && Stop(blocks, start + 1, base) == Stop(blocks, position, base)
      {
        if blocks[position].Heading? && blocks[position].level <= base {
          end := position;
          break;
        }
      }
      section := blocks[start + 1..end];
    }
    return NonEmpty(section);
  }

  method RawSection(g: Grammar, lines: seq<Line>, blocks: seq<Block>, title: string) returns (r: Result<seq<Line>, SectionError>)
    ensures r == SectionText(g, lines, blocks, title)
  {
    var matches := Matches(blocks, title);
    if matches == [] { return Err(NotFound); }
    if |matches| > 1 { return Err(Ambiguous(|matches|)); }
    var start := blocks[matches[0]];
    var end := |lines| + 1;
    for k := 0 to |blocks|
      invariant end == |lines| + 1
      invariant EndLine(blocks, start.line, start.level, end) == EndLine(blocks[k..], start.line, start.level, end)
    {
      assert blocks[k..][1..] == blocks[k + 1..];
      if blocks[k].Heading? && blocks[k].line > start.line && blocks[k].level <= start.level {
        end := blocks[k].line;
        break;
      }
    }
    var body := Slice(lines, start.line, end - 1);
    return if AllBlank(g, body) then Err(Empty) else Ok(body);
  }

  // ---- headings stand at chunk boundaries

  /** The chunks from `i` on begin one at `e`. */
  ghost predicate Reaches(g: Grammar, a: seq<Line>, i: nat, e: nat)
    requires i <= |a|
    decreases |a| - i, 1
  {
    i == e || (i < e && i < |a| && ReachesFrom(g, a, StepAt(g, a, i), e))
  }

  ghost predicate ReachesFrom(g: Grammar, a: seq<Line>, step: Step, e: nat)
    requires step.end <= |a|
    decreases |a| - step.end, 2
  {
    Reaches(g, a, step.end, e)
  }

  lemma {:induction false} ReachesEnd(g: Grammar, a: seq<Line>, i: nat)
    requires i <= |a|
    ensures Reaches(g, a, i, |a|)
    decreases |a| - i
  {
    if i < |a| {
      ReachesEnd(g, a, StepAt(g, a, i).end);
      assert ReachesFrom(g, a, StepAt(g, a, i), |a|);
    }
  }

  lemma {:induction false} ReachesBound(g: Grammar, a: seq<Line>, i: nat, e: nat)
    requires i <= |a| && Reaches(g, a, i, e)
    ensures i <= e
  {
  }

  /** The chunks of the lines cut out are the chunks of the text up to the cut. */
  lemma {:induction false} ChunksCut(g: Grammar, a: seq<Line>, b: seq<Line>, d: nat, j: nat)
    requires Cut(g, a, b, d) && j <= |b| && Reaches(g, a, d + j, d + |b|)
    ensures Chunks(g, a, d + j) == Chunks(g, b, j) + Chunks(g, a, d + |b|)
    decreases |b| - j, 1
  {
    if j < |b| {
      var step := StepAt(g, a, d + j);
      assert ReachesFrom(g, a, step, d + |b|);
      ReachesBound(g, a, step.end, d + |b|);
      StepCut(g, a, b, d, j);
      ChunksFromCut(g, a, b, d, j, step, StepAt(g, b, j));
    }
  }

  lemma {:induction false} ChunksFromCut(g: Grammar, a: seq<Line>, b: seq<Line>, d: nat, j: nat, step: Step, step': Step)
    requires Cut(g, a, b, d) && SameStep(step, step', d) && j < step'.end <= |b| && Reaches(g, a, step.end, d + |b|)
    ensures ChunksFrom(g, a, step) == ChunksFrom(g, b, step') + Chunks(g, a, d + |b|)
    decreases |b| - j, 0
  {
    ChunksCut(g, a, b, d, step'.end);
  }

  /** A heading at line `e` parts the blocks there. */
  ghost predicate Parts(g: Grammar, a: seq<Line>, i: nat, q: nat, e: nat)
    requires i <= |a| && q <= |BlocksFrom(g, a, i)|
  {
    && i <= e <= |a| && Reaches(g, a, i, e) && (e < |a| ==> StopsAll(g(a[e].text)))
    && BlocksFrom(g, a, i) == BlocksFrom(g, a, i)[..q] + BlocksFrom(g, a, e)
  }

  lemma {:induction false} HeadingBuilt(g: Grammar, a: seq<Line>, i: nat, k: nat)
    requires i < |a| && k < |Build(g, StepAt(g, a, i).chunk)| && Build(g, StepAt(g, a, i).chunk)[k].Heading?
    ensures k == 0 && StopsAll(g(a[i].text)) && StepAt(g, a, i).end == i + 1
    ensures Build(g, StepAt(g, a, i).chunk) == [Build(g, StepAt(g, a, i).chunk)[0]]
    ensures Build(g, StepAt(g, a, i).chunk)[0].line == a[i].number
  {
  }

  /** Every heading block stands at a line where a chunk begins, and parts the blocks there. */
  lemma {:induction false} HeadingAt(g: Grammar, a: seq<Line>, i: nat, q: nat) returns (e: nat)
    requires i <= |a| && q < |BlocksFrom(g, a, i)| && BlocksFrom(g, a, i)[q].Heading?
    ensures Parts(g, a, i, q, e) && e < |a| && a[e].number == BlocksFrom(g, a, i)[q].line
    ensures BlocksFrom(g, a, i)[q + 1..] == BlocksFrom(g, a, e + 1)
    decreases |a| - i
  {
    var step := StepAt(g, a, i);
    var built := Build(g, step.chunk);
    var rest := BlocksFrom(g, a, step.end);
    BlocksStep(g, a, i);
    if q < |built| {
      HeadingBuilt(g, a, i, q);
      e := i;
    } else {
      e := HeadingAt(g, a, step.end, q - |built|);
      PartsThrough(g, a, i, q, e, step, built);
    }
  }

  lemma {:induction false} PartsThrough(g: Grammar, a: seq<Line>, i: nat, q: nat, e: nat, step: Step, built: seq<Block>)
    requires i < |a| && step == StepAt(g, a, i) && |built| <= q < |BlocksFrom(g, a, i)|
    requires BlocksFrom(g, a, i) == built + BlocksFrom(g, a, step.end)
    requires Parts(g, a, step.end, q - |built|, e)
    ensures Parts(g, a, i, q, e)
  {
    assert ReachesFrom(g, a, step, e);
    var rest := BlocksFrom(g, a, step.end);
    assert (built + rest)[..q] == built + rest[..q - |built|];
  }

  /** The blocks up to such a heading, or the end, are the lines up to it parsed alone. */
  lemma {:induction false} PartParsed(g: Grammar, a: seq<Line>, i: nat, q: nat, e: nat)
    requires i <= |a| && q <= |BlocksFrom(g, a, i)| && Parts(g, a, i, q, e)
    ensures BlocksFrom(g, a, i)[..q] == Parse(g, a[i..e])
  {
    var b := a[i..e];
    ChunksCut(g, a, b, i, 0);
    BuildAllConcat(g, Chunks(g, b, 0), Chunks(g, a, e));
    var whole, rest := BlocksFrom(g, a, i), BlocksFrom(g, a, e);
    assert whole == Parse(g, b) + rest;
    assert |Parse(g, b)| == q;
    assert whole[..q] == Parse(g, b);
  }

  // ---- the two agree

  ghost predicate Increasing(blocks: seq<Block>) {
    forall k, m :: 0 <= k < m < |blocks| ==> blocks[k].line < blocks[m].line
  }

  lemma {:induction false} EndLineBefore(blocks: seq<Block>, k: nat, p: nat, level: nat, beyond: int)
    requires k <= p + 1 <= |blocks| && Increasing(blocks)
    ensures EndLine(blocks[k..], blocks[p].line, level, beyond) == EndLine(blocks[p + 1..], blocks[p].line, level, beyond)
    decreases p + 1 - k
  {
    if k <= p {
      EndLineBefore(blocks, k + 1, p, level, beyond);
      assert blocks[k..][1..] == blocks[k + 1..];
      assert blocks[k].line <= blocks[p].line;
    }
  }

  lemma {:induction false} EndLineAfter(blocks: seq<Block>, k: nat, line: int, level: nat, beyond: int)
    requires k <= |blocks| && forall m :: k <= m < |blocks| ==> line < blocks[m].line
    ensures var q := Stop(blocks, k, level);
            EndLine(blocks[k..], line, level, beyond) == if q < |blocks| then blocks[q].line else beyond
    decreases |blocks| - k
  {
    if k < |blocks| && !Closes(blocks[k], level) {
      EndLineAfter(blocks, k + 1, line, level, beyond);
      assert blocks[k..][1..] == blocks[k + 1..];
    }
  }

  /** The end found by line is the line of the end found by position. */
  lemma {:induction false} EndLineIsStop(blocks: seq<Block>, p: nat, level: nat, beyond: int)
    requires p < |blocks| && Increasing(blocks)
    ensures var q := Stop(blocks, p + 1, level);
            EndLine(blocks, blocks[p].line, level, beyond) == if q < |blocks| then blocks[q].line else beyond
  {
    assert blocks[0..] == blocks;
    EndLineBefore(blocks, 0, p, level, beyond);
    EndLineAfter(blocks, p + 1, blocks[p].line, level, beyond);
  }

  /** The blocks by position are exactly the blocks by line. */
  lemma {:induction false} SectionByLine(g: Grammar, lines: seq<Line>, p: nat, k: nat)
    requires Consecutive(lines, 1) && p < |Parse(g, lines)| && k < |Parse(g, lines)| && Parse(g, lines)[p].Heading?
    ensures var blocks := Parse(g, lines);
            var level := blocks[p].level;
            (p < k < Stop(blocks, p + 1, level))
            <==> (blocks[p].line < blocks[k].line < EndLine(blocks, blocks[p].line, level, |lines| + 1))
  {
    var blocks := Parse(g, lines);
    LinesIncrease(g, lines, 1);
    EndLineIsStop(blocks, p, blocks[p].level, |lines| + 1);
    assert p < k ==> blocks[p].line < blocks[k].line;
    assert k < p ==> blocks[k].line < blocks[p].line;
    var q := Stop(blocks, p + 1, blocks[p].level);
    if q < |blocks| {
      assert k < q ==> blocks[k].line < blocks[q].line;
      assert q < k ==> blocks[q].line < blocks[k].line;
    }
  }

  /** The blocks between two headings, or up to the end, are the lines between them parsed alone. */
  lemma {:induction false} BetweenHeadings(g: Grammar, lines: seq<Line>, p: nat, q: nat) returns (d: nat, e: nat)
    requires var blocks := Parse(g, lines); p < q <= |blocks| && blocks[p].Heading? && (q < |blocks| ==> blocks[q].Heading?)
    ensures d <= e <= |lines| && d > 0 && Parse(g, lines)[p].line == lines[d - 1].number
    ensures if q < |Parse(g, lines)| then e < |lines| && Parse(g, lines)[q].line == lines[e].number else e == |lines|
    ensures Parse(g, lines)[p + 1..q] == Parse(g, lines[d..e])
  {
    var blocks := BlocksFrom(g, lines, 0);
    var h := HeadingAt(g, lines, 0, p);
    d := h + 1;
    var n := q - p - 1;
    assert blocks[p + 1..] == BlocksFrom(g, lines, d);
    assert blocks[p + 1..q] == BlocksFrom(g, lines, d)[..n];
    if q < |blocks| {
      e := HeadingAt(g, lines, d, n);
    } else {
      e := |lines|;
      ReachesEnd(g, lines, d);
    }
    PartParsed(g, lines, d, n, e);
  }

  lemma {:induction false} SectionParsed(g: Grammar, lines: seq<Line>, p: nat)
    requires Consecutive(lines, 1) && p < |Parse(g, lines)| && Parse(g, lines)[p].Heading?
    ensures var blocks := Parse(g, lines);
            var end := EndLine(blocks, blocks[p].line, blocks[p].level, |lines| + 1);
            blocks[p + 1..Stop(blocks, p + 1, blocks[p].level)] == Parse(g, Slice(lines, blocks[p].line, end - 1))
  {
    var blocks := Parse(g, lines);
    LinesIncrease(g, lines, 1);
    EndLineIsStop(blocks, p, blocks[p].level, |lines| + 1);
    var d, e := BetweenHeadings(g, lines, p, Stop(blocks, p + 1, blocks[p].level));
    assert Slice(lines, d, e) == lines[d..e];
  }

  /** The page excerpt and the digested text of a section are found or refused alike, and the excerpt is what the
      digested lines parse to: nothing shown escapes the digest, and nothing digested is left out of the page. */
  lemma {:induction false} SectionsAgree(g: Grammar, lines: seq<Line>, blocks: seq<Block>, title: string)
    requires Consecutive(lines, 1) && blocks == Parse(g, lines)
    ensures match (ExcerptOf(blocks, Some(title)), SectionText(g, lines, blocks, title))
            case (Ok(excerpt), Ok(body)) => excerpt == Parse(g, body)
            case (Err(e), Err(f)) => e == f
            case _ => false
  {
    if TheMatch(blocks, title).Ok? {
      var p := TheMatch(blocks, title).value;
      SectionParsed(g, lines, p);
      var end := EndLine(blocks, blocks[p].line, blocks[p].level, |lines| + 1);
      EmptyIffBlank(g, Slice(lines, blocks[p].line, end - 1));
    }
  }

  /** A whole document is refused for a second title exactly when a level-1 heading stands anywhere but first. */
  lemma {:induction false} WholeRefusedIff(blocks: seq<Block>)
    ensures ExcerptOf(blocks, None) == Err(OtherTitle)
       <==> exists k :: 0 < k < |blocks| && blocks[k].Heading? && blocks[k].level == 1
  {
    var rest := Untitled(blocks);
    var shift := |blocks| - |rest|;
    assert forall k :: 0 <= k < |rest| ==> rest[k] == blocks[k + shift];
    if k :| 0 < k < |blocks| && blocks[k].Heading? && blocks[k].level == 1 {
      assert rest[k - shift] == blocks[k];
    }
  }
}
