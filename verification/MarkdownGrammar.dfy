/** The parser's real line shapes, and the proof that they are sound. */
module MarkdownGrammar {
  import opened Results
  import opened MarkdownText
  import MarkdownChunks

  function Look(s: string): MarkdownChunks.Shape {
    MarkdownChunks.Shape(
      Blank(s), Indent(s), LStrip(s), RStrip(s), Fence(s), Closing(s), HeadingOf(s), IsRule(s),
      IsQuote(s), if IsQuote(s) then Unquote(s) else s, ListItem(s), IsSetext(s), Interrupts(s), IsReference(s), IsHtml(s),
      '|' in s, SplitRow(s), IsDelimiterRow(s), AlertWord(s), TaskMark(s))
  }

  predicate StartsWithHash(s: string) {
    Indent(s) < |s| && s[Indent(s)] == '#'
  }

  lemma {:induction false} HashIsNoItem(s: string)
    requires StartsWithHash(s)
    ensures ListItem(s).None? && !IsQuote(s) && !IsSetext(s)
  {
    if Body(s).Some? { assert Run(Body(s).value, IsDigit) == 0; }
  }

  lemma {:induction false} HashIsNoDelimiter(s: string)
    requires StartsWithHash(s)
    ensures !IsDelimiterRow(s)
  {
    var t := s[if Indent(s) <= 3 then Indent(s) else 3..];
    assert t[0] != '|';
    assert Drop(t, IsTabOrSpace) == t[Run(t, IsTabOrSpace)..];
    HashIsNoCell(t);
  }

  lemma {:induction false} HashIsNoCell(t: string)
    requires Indent(t) < |t| && t[Indent(t)] == '#'
    ensures !DelimiterCells(t)
  {
    SpacesThenHash(t);
    assert DelimiterCell(t).None?;
  }

  lemma {:induction false} SpacesThenHash(t: string)
    requires Indent(t) < |t| && t[Indent(t)] == '#'
    ensures Run(t, IsTabOrSpace) == Indent(t)
  {
    RunIs(t, IsTabOrSpace, Indent(t));
  }

  /** A heading line starts with a hash, so it is no other construct. */
  lemma {:induction false} HeadingStands(s: string)
    requires HeadingOf(s).Some?
    ensures ListItem(s).None? && !IsQuote(s) && !IsSetext(s) && !IsDelimiterRow(s) && Interrupts(s)
  {
    var t := Body(s).value;
    assert t != [] && t[0] == '#';
    assert StartsWithHash(s);
    HashIsNoItem(s);
    HashIsNoDelimiter(s);
  }

  lemma {:induction false} SuffixOneLine(s: string, n: nat)
    requires n <= |s| && MarkdownChunks.OneLine(s)
    ensures MarkdownChunks.OneLine(s[n..]) && MarkdownChunks.OneLine(s[..n])
  {
  }

  lemma {:induction false} StripsOneLine(s: string)
    requires MarkdownChunks.OneLine(s)
    ensures MarkdownChunks.OneLine(LStrip(s)) && MarkdownChunks.OneLine(RStrip(s))
  {
    SuffixOneLine(s, Run(s, IsSpace));
    SuffixOneLine(s, |RStrip(s)|);
  }

  lemma {:induction false} UnquoteOneLine(s: string)
    requires MarkdownChunks.OneLine(s) && IsQuote(s)
    ensures MarkdownChunks.OneLine(Unquote(s))
  {
    SuffixOneLine(s, |s| - |Unquote(s)|);
    assert Unquote(s) == s[|s| - |Unquote(s)|..];
  }

  lemma {:induction false} ItemIsSuffix(s: string)
    requires ListItem(s).Some?
    ensures var rest := ListItem(s).value.rest; |rest| <= |s| && rest == s[|s| - |rest|..]
  {
    var t := Body(s).value;
    var n := MarkerLength(t);
    var spaces := Indent(t[n..]);
    assert t[n + spaces..] == s[Indent(s) + n + spaces..];
  }

  lemma {:induction false} ItemOneLine(s: string)
    requires MarkdownChunks.OneLine(s) && ListItem(s).Some?
    ensures MarkdownChunks.OneLine(ListItem(s).value.rest)
  {
    ItemIsSuffix(s);
    SuffixOneLine(s, |s| - |ListItem(s).value.rest|);
  }

  /** `WellShaped`, clause by clause. */
  lemma {:induction false} Shaped(s: string, f: MarkdownChunks.Shape)
    requires (s == "" ==> f.blank) && f.indent <= |s| && |f.lstripped| <= |s| && (f.quote ==> |f.unquoted| < |s|)
    requires MarkdownChunks.OneLine(s) ==>
               (MarkdownChunks.OneLine(f.lstripped) && MarkdownChunks.OneLine(f.rstripped) && MarkdownChunks.OneLine(f.unquoted))
    requires f.item.Some? ==>
               (var m := f.item.value;
                && 0 < |m.marker| && m.indent + |m.marker| + m.spaces + |m.rest| == |s|
                && (MarkdownChunks.OneLine(s) ==> MarkdownChunks.OneLine(m.rest)))
    requires f.heading.Some? ==> (f.item.None? && !f.quote && !f.setext && !f.delimiterRow && f.interrupts)
    ensures MarkdownChunks.WellShaped(s, f)
  {
  }

  lemma {:induction false} LookSound(s: string)
    ensures MarkdownChunks.WellShaped(s, Look(s))
  {
    if HeadingOf(s).Some? { HeadingStands(s); }
    if MarkdownChunks.OneLine(s) {
      StripsOneLine(s);
      if IsQuote(s) { UnquoteOneLine(s); }
      if ListItem(s).Some? { ItemOneLine(s); }
    }
    Shaped(s, Look(s));
  }

  lemma {:induction false} AllSound()
    ensures forall s :: MarkdownChunks.WellShaped(s, Look(s))
  {
    forall s ensures MarkdownChunks.WellShaped(s, Look(s)) { LookSound(s); }
  }

  function Markdown(): MarkdownChunks.Grammar {
    AllSound();
    s => Look(s)
  }

  /** The grammar is the real one. */
  ghost predicate Real(g: MarkdownChunks.Grammar) {
    forall s {:trigger Look(s)} :: g(s) == Look(s)
  }

  /** There is such a grammar, so what is proved of every real one is not empty. */
  lemma {:induction false} MarkdownIsReal()
    ensures Real(Markdown())
  {
  }

  // ---- numbered lines of a text

  /** Each leading tab becomes four spaces. */
  function Expanded(s: string): string {
    if s != [] && s[0] == '\t' then "    " + Expanded(s[1..]) else s
  }

  function Numbered(raw: seq<string>, first: int): (lines: seq<MarkdownChunks.Line>)
    ensures |lines| == |raw|
    ensures forall k :: 0 <= k < |raw| ==> lines[k] == MarkdownChunks.Line(first + k, Expanded(raw[k]))
  {
    seq(|raw|, k requires 0 <= k < |raw| => MarkdownChunks.Line(first + k, Expanded(raw[k])))
  }

  lemma {:induction false} ExpandedBlank(s: string)
    ensures Blank(Expanded(s)) <==> Blank(s)
  {
    if s != [] && s[0] == '\t' {
      ExpandedBlank(s[1..]);
      var e := Expanded(s[1..]);
      assert Expanded(s) == "    " + e;
      assert Blank("    " + e) <==> Blank(e) by {
        assert forall k :: 0 <= k < |e| ==> ("    " + e)[k + 4] == e[k];
      }
      assert Blank(s) <==> Blank(s[1..]) by {
        assert forall k :: 1 <= k < |s| ==> s[k] == s[1..][k - 1];
      }
    }
  }

  lemma {:induction false} ExpandedOneLine(s: string)
    ensures MarkdownChunks.OneLine(s) ==> MarkdownChunks.OneLine(Expanded(s))
  {
    if s != [] && s[0] == '\t' { ExpandedOneLine(s[1..]); }
  }
}
