/** The block structure of a Markdown text: its chunks, with the inner lines of quotes and list items parsed the same
    way again. */
module MarkdownBlocks {
  import opened Results
  import MarkdownText
  import opened MarkdownChunks

  predicate IsAlertKind(word: string) {
    word == "NOTE" || word == "TIP" || word == "IMPORTANT" || word == "WARNING" || word == "CAUTION"
  }

  /** Text up to the first newline, and text after it. */
  function FirstLine(s: string): string {
    s[..MarkdownText.Run(s, c => c != '\n')]
  }

  function AfterFirstLine(s: string): string {
    var n := MarkdownText.Run(s, c => c != '\n');
    if n == |s| then [] else s[n + 1..]
  }

  /** A leading `[!KIND]` line turns the quote into an alert and leaves its content. */
  function Alerted(g: Grammar, parsed: seq<Block>): (seq<Block>, Option<string>) {
    if parsed == [] || !parsed[0].Para? then (parsed, None)
    else
      var p := parsed[0];
      match g(FirstLine(p.text)).alertWord
      case None => (parsed, None)
      case Some(word) =>
        if !IsAlertKind(word) then ([Unsupported(p.line, UnknownAlert)] + parsed[1..], None)
        else if !g(AfterFirstLine(p.text)).blank then
          ([Para(p.line + 1, AfterFirstLine(p.text))] + parsed[1..], Some(word))
        else (parsed[1..], Some(word))
  }

  /** A leading task mark is taken off the item's first paragraph. */
  function TaskItem(g: Grammar, blocks: seq<Block>): Item {
    if blocks == [] || !blocks[0].Para? then Item(blocks, None)
    else
      match g(blocks[0].text).taskMark
      case None => Item(blocks, None)
      case Some((done, length)) =>
        Item([Para(blocks[0].line, blocks[0].text[Min(length, |blocks[0].text|)..])] + blocks[1..], Some(done))
  }

  function ItemsOf(g: Grammar, groups: seq<seq<Line>>): seq<Item>
    decreases GroupsWeight(groups), 0, |groups|
  {
    if groups == [] then [] else [TaskItem(g, Parse(g, groups[0]))] + ItemsOf(g, groups[1..])
  }

  function Build(g: Grammar, c: Chunk): seq<Block>
    decreases Weight(c), 1, 0
  {
    match c
    case Gap => []
    case Leaf(b) => [b]
    case QuoteChunk(line, inner, lazy) =>
      var content := Alerted(g, Parse(g, inner));
      [Quote(line, content.0, content.1)] + (if lazy.Some? then [Unsupported(lazy.value, LazyContinuation)] else [])
    case ListChunk(line, ordered, start, groups) => [ListBlock(line, ordered, start, ItemsOf(g, groups))]
  }

  function BuildAll(g: Grammar, chunks: seq<Chunk>): seq<Block>
    decreases TotalWeight(chunks), 2, |chunks|
  {
    if chunks == [] then [] else Build(g, chunks[0]) + BuildAll(g, chunks[1..])
  }

  /** The blocks of a text. */
  function Parse(g: Grammar, lines: seq<Line>): seq<Block>
    decreases Size(lines), 3, 0
  {
    ChunksWeigh(g, lines, 0);
    BuildAll(g, Chunks(g, lines, 0))
  }

  lemma {:induction false} BuildAllConcat(g: Grammar, c: seq<Chunk>, c': seq<Chunk>)
    ensures BuildAll(g, c + c') == BuildAll(g, c) + BuildAll(g, c')
  {
    if c == [] { assert c + c' == c'; }
    else {
      BuildAllConcat(g, c[1..], c');
      assert (c + c')[1..] == c[1..] + c';
    }
  }

  /** What the chunks from `i` on build. */
  function BlocksFrom(g: Grammar, a: seq<Line>, i: nat): seq<Block>
    requires i <= |a|
  {
    BuildAll(g, Chunks(g, a, i))
  }

  lemma {:induction false} BlocksStep(g: Grammar, a: seq<Line>, i: nat)
    requires i < |a|
    ensures BlocksFrom(g, a, i) == Build(g, StepAt(g, a, i).chunk) + BlocksFrom(g, a, StepAt(g, a, i).end)
  {
    var step := StepAt(g, a, i);
    var rest := Chunks(g, a, step.end);
    assert Chunks(g, a, i) == ChunksFrom(g, a, step) == [step.chunk] + rest;
    BuildAllConcat(g, [step.chunk], rest);
    assert BuildAll(g, [step.chunk]) == Build(g, step.chunk) + BuildAll(g, []);
  }
}
