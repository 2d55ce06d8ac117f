/** The theorems about blocks and sections, for the real grammar and the lines of a file. */
module Documents {
  import opened Results
  import opened MarkdownChunks
  import opened MarkdownBlocks
  import opened BlockOrder
  import opened Sections
  import opened MarkdownGrammar
  import MarkdownText

  /** Lines as `splitlines` gives them. */
  ghost predicate AreLines(raw: seq<string>) {
    forall k :: 0 <= k < |raw| ==> OneLine(raw[k])
  }

  function Document(g: Grammar, raw: seq<string>): seq<Block> {
    Parse(g, Numbered(raw, 1))
  }

  lemma {:induction false} NumberedConsecutive(raw: seq<string>)
    requires AreLines(raw)
    ensures Consecutive(Numbered(raw, 1), 1)
  {
    forall k | 0 <= k < |raw| ensures OneLine(Numbered(raw, 1)[k].text) { ExpandedOneLine(raw[k]); }
  }

  /** Every block of a document, at every nesting level, stands in its own lines of the file, in order. */
  lemma {:induction false} DocumentPlaced(g: Grammar, raw: seq<string>)
    requires AreLines(raw)
    ensures Placed(Document(g, raw), 1, |raw| + 1)
  {
    NumberedConsecutive(raw);
    ParsePlaced(g, Numbered(raw, 1), 1);
  }

  predicate AllBlankText(text: seq<string>) {
    forall k :: 0 <= k < |text| ==> MarkdownText.Blank(text[k])
  }

  /** The raw lines that the review digest of a section covers. */
  function DigestedLines(raw: seq<string>, blocks: seq<Block>, title: string): Result<seq<string>, SectionError> {
    match TheMatch(blocks, title)
    case Err(e) => Err(e)
    case Ok(p) =>
      var text := Slice(raw, blocks[p].line, EndLine(blocks, blocks[p].line, blocks[p].level, |raw| + 1) - 1);
      if AllBlankText(text) then Err(Empty) else Ok(text)
  }

  lemma {:induction false} SliceNumbered(raw: seq<string>, from: int, to: int)
    requires 0 <= from <= |raw|
    ensures Slice(Numbered(raw, 1), from, to) == Numbered(Slice(raw, from, to), from + 1)
  {
  }

  lemma {:induction false} BlankAsRead(g: Grammar, s: string)
    requires Real(g)
    ensures g(Expanded(s)).blank <==> MarkdownText.Blank(s)
  {
    ExpandedBlank(s);
    assert Look(Expanded(s)).blank == MarkdownText.Blank(Expanded(s));
  }

  lemma {:induction false} NumberedBlank(g: Grammar, text: seq<string>, first: int)
    requires Real(g)
    ensures AllBlank(g, Numbered(text, first)) <==> AllBlankText(text)
  {
    var lines := Numbered(text, first);
    forall k | 0 <= k < |text| ensures g(lines[k].text).blank <==> MarkdownText.Blank(text[k]) {
      BlankAsRead(g, text[k]);
    }
  }

  lemma {:induction false} DigestedAre(g: Grammar, raw: seq<string>, blocks: seq<Block>, title: string, p: nat)
    requires Real(g) && TheMatch(blocks, title) == Ok(p) && 0 <= blocks[p].line <= |raw|
    ensures match (DigestedLines(raw, blocks, title), SectionText(g, Numbered(raw, 1), blocks, title))
            case (Ok(text), Ok(lines)) => lines == Numbered(text, blocks[p].line + 1)
            case (Err(e), Err(f)) => e == f
            case _ => false
  {
    var end := EndLine(blocks, blocks[p].line, blocks[p].level, |raw| + 1);
    SliceNumbered(raw, blocks[p].line, end - 1);
    NumberedBlank(g, Slice(raw, blocks[p].line, end - 1), blocks[p].line + 1);
  }

  /** The blocks shown for a section of a file are what its digested lines parse to; a section is refused for the page
      exactly when it is refused for the digest, for the same reason. */
  lemma {:induction false} ShownIsDigested(g: Grammar, raw: seq<string>, title: string)
    requires Real(g) && AreLines(raw)
    ensures match (ExcerptOf(Document(g, raw), Some(title)), DigestedLines(raw, Document(g, raw), title))
            case (Ok(excerpt), Ok(text)) =>
              TheMatch(Document(g, raw), title).Ok?
              && excerpt == Parse(g, Numbered(text, Document(g, raw)[TheMatch(Document(g, raw), title).value].line + 1))
            case (Err(e), Err(f)) => e == f
            case _ => false
  {
    NumberedConsecutive(raw);
    SectionsAgree(g, Numbered(raw, 1), Document(g, raw), title);
    LinesIncrease(g, Numbered(raw, 1), 1);
    if TheMatch(Document(g, raw), title).Ok? {
      DigestedAre(g, raw, Document(g, raw), title, TheMatch(Document(g, raw), title).value);
    }
  }
}
