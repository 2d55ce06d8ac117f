/** The two text rules of the rollout: the one addition to AGENTS.md, and the blank lines that do not count. */
module RecopyText {
  import opened Results
  import opened RecopyModel

  // ---- AGENTS.md

  /** The marker stands out: its first character occurs nowhere else in the block, and it is on one line. */
  predicate Distinctive(e: Setting) {
    && e.marker != [] && '\n' !in e.marker
    && e.marker[0] !in e.marker[1..] && e.marker[0] !in e.tail
  }

  lemma {:induction false} NoneCounted(text: string, word: string, i: nat)
    requires i <= |text| && word != []
    ensures CountFrom(text, word, i) == 0 <==> forall k: nat :: i <= k ==> !Occurs(text, word, k)
    decreases |text| - i
  {
    if i < |text| && !Occurs(text, word, i) { NoneCounted(text, word, i + 1); }
  }

  lemma {:induction false} OneCounted(text: string, word: string, i: nat, k: nat)
    requires i <= k && word != [] && Occurs(text, word, k) && forall j: nat :: i <= j && Occurs(text, word, j) ==> j == k
    ensures CountFrom(text, word, i) == 1 && IndexFrom(text, word, i) == Some(k)
    decreases k - i
  {
    if i < k { OneCounted(text, word, i + 1, k); }
    else { NoneCounted(text, word, k + |word|); }
  }

  lemma {:induction false} TrimmedStays(s: string)
    ensures TrimNewlines(TrimNewlines(s)) == TrimNewlines(s)
  {
    if s != [] && s[|s| - 1] == '\n' { TrimmedStays(s[..|s| - 1]); }
  }

  lemma {:induction false} TrimsTwo(s: string)
    ensures TrimNewlines(s + ['\n', '\n']) == TrimNewlines(s)
  {
    var one, two := s + ['\n'], s + ['\n', '\n'];
    assert two[..|two| - 1] == one && one[..|one| - 1] == s;
    assert TrimNewlines(two) == TrimNewlines(one);
  }

  lemma {:induction false} OccursIn(text: string, word: string, i: nat, j: nat)
    requires Occurs(text, word, i) && i <= j < i + |word|
    ensures text[j] == word[j - i]
  {
    assert text[i..i + |word|][j - i] == text[j];
  }

  /** In a text with the block appended, the marker occurs in the block alone. */
  lemma {:induction false} MarkerOnce(e: Setting, t: string, k: nat)
    requires Distinctive(e) && forall i: nat :: !Occurs(t, e.marker, i)
    requires Occurs(t + Block(e), e.marker, k)
    ensures k == |t| + 2
  {
    var c, m := t + Block(e), e.marker;
    OccursIn(c, m, k, k);
    if k + |m| <= |t| {
      assert t[k..k + |m|] == c[k..k + |m|];
      assert Occurs(t, m, k);
    } else if k < |t| + 2 {
      var j := if k <= |t| then |t| else |t| + 1;
      assert c[j] == '\n';
      OccursIn(c, m, k, j);
    }
  }

  lemma {:induction false} MarkerFoundOnce(e: Setting, t: string)
    requires Distinctive(e) && forall i: nat :: !Occurs(t, e.marker, i)
    ensures CountFrom(t + Block(e), e.marker, 0) == 1 && IndexFrom(t + Block(e), e.marker, 0) == Some(|t| + 2)
  {
    var c, m := t + Block(e), e.marker;
    assert c[|t| + 2..|t| + 2 + |m|] == m;
    forall j: nat | Occurs(c, m, j) ensures j == |t| + 2 { MarkerOnce(e, t, j); }
    OneCounted(c, m, 0, |t| + 2);
  }

  lemma {:induction false} NoneInPrefix(text: string, t: string, word: string)
    requires t <= text && word != [] && CountFrom(text, word, 0) == 0
    ensures forall i: nat :: !Occurs(t, word, i)
  {
    NoneCounted(text, word, 0);
    forall i: nat ensures Occurs(t, word, i) ==> Occurs(text, word, i) {
      if i + |word| <= |t| { assert text[i..i + |word|] == t[i..i + |word|]; }
    }
  }

  /** The canonical text keeps the guidance, up to newlines at its end, and is its own canonical text. */
  lemma {:induction false} CanonicalKeeps(e: Setting, text: string)
    requires Distinctive(e) && Canonical(e, text).Some?
    ensures var c := Canonical(e, text).value; TrimNewlines(text) <= c && Canonical(e, c) == Some(c)
  {
    if CountFrom(text, e.marker, 0) == 0 {
      var t := TrimNewlines(text);
      NoneInPrefix(text, t, e.marker);
      MarkerFoundOnce(e, t);
      assert (t + Block(e))[..|t| + 2] == t + ['\n', '\n'];
      TrimsTwo(t);
      TrimmedStays(text);
    } else {
      TrimPrefix(text);
    }
  }

  lemma {:induction false} TrimPrefix(s: string)
    ensures TrimNewlines(s) <= s
  {
  }

  // ---- blank lines

  /** The lines that say something. */
  function Telling(lines: seq<string>): seq<string> {
    if lines == [] then [] else (if BlankLine(lines[0]) then [] else [lines[0]]) + Telling(lines[1..])
  }

  lemma {:induction false} SqueezeKeeps(lines: seq<string>, previousBlank: bool)
    ensures Telling(Squeezed(lines, previousBlank)) == Telling(lines)
    ensures Squeezed(Squeezed(lines, previousBlank), previousBlank) == Squeezed(lines, previousBlank)
  {
    if lines != [] {
      var blank := BlankLine(lines[0]);
      SqueezeKeeps(lines[1..], blank);
      if !(blank && previousBlank) {
        var rest := Squeezed(lines[1..], blank);
        assert ([lines[0]] + rest)[1..] == rest;
      }
    }
  }

  predicate NoBreaks(lines: seq<string>) {
    forall k :: 0 <= k < |lines| ==> forall i :: 0 <= i < |lines[k]| ==> !IsBreak(lines[k][i])
  }

  lemma {:induction false} BreakAtIs(s: string, n: nat)
    requires n <= |s| && (forall k :: 0 <= k < n ==> !IsBreak(s[k])) && (n < |s| ==> IsBreak(s[n]))
    ensures BreakAt(s) == n
  {
  }

  lemma {:induction false} SplitNoBreaks(s: string)
    ensures NoBreaks(SplitLines(s))
    decreases |s|
  {
    if s != [] {
      var n := BreakAt(s);
      if n < |s| {
        if s[n] == '\r' && n + 1 < |s| && s[n + 1] == '\n' { SplitNoBreaks(s[n + 2..]); } else { SplitNoBreaks(s[n + 1..]); }
      }
    }
  }

  lemma {:induction false} SqueezedNoBreaks(lines: seq<string>, previousBlank: bool)
    requires NoBreaks(lines)
    ensures NoBreaks(Squeezed(lines, previousBlank))
  {
    if lines != [] { SqueezedNoBreaks(lines[1..], BlankLine(lines[0])); }
  }

  lemma {:induction false} SplitOne(line: string, rest: string)
    requires forall i :: 0 <= i < |line| ==> !IsBreak(line[i])
    ensures SplitLines(line + ['\n'] + rest) == [line] + SplitLines(rest)
  {
    var s := line + ['\n'] + rest;
    BreakAtIs(s, |line|);
    assert s[..|line|] == line && s[|line| + 1..] == rest;
  }

  /** Joined lines split again into the lines, but for a blank one at the end. */
  lemma {:induction false} SplitJoined(lines: seq<string>, end: string)
    requires NoBreaks(lines) && (end == [] || end == ['\n'])
    ensures Telling(SplitLines(Joined(lines) + end)) == Telling(lines)
  {
    if lines == [] {
      assert Joined(lines) + end == end;
      if end != [] { SplitOne([], []); assert [] + ['\n'] + [] == end; }
    } else if |lines| == 1 {
      if end == [] {
        assert Joined(lines) + end == lines[0];
        BreakAtIs(lines[0], |lines[0]|);
      } else {
        SplitOne(lines[0], []);
        assert Joined(lines) + end == lines[0] + ['\n'] + [];
      }
    } else {
      SplitJoined(lines[1..], end);
      SplitOne(lines[0], Joined(lines[1..]) + end);
      assert Joined(lines) + end == lines[0] + ['\n'] + (Joined(lines[1..]) + end);
    }
  }

  /** Normalising a file changes none of the lines that say something. */
  lemma {:induction false} NormalKeepsTelling(e: Setting, p: Path, content: string)
    ensures Telling(SplitLines(NormalContent(e, p, content))) == Telling(SplitLines(content))
  {
    if p in e.formatted && !e.blockScalar(content) {
      var lines := SplitLines(content);
      SplitNoBreaks(content);
      SqueezedNoBreaks(lines, false);
      SqueezeKeeps(lines, false);
      SplitJoined(Squeezed(lines, false), if content != [] && IsBreak(content[|content| - 1]) then ['\n'] else []);
    }
  }

  /** So a file proven equal to its old render has the old render's lines, and outside the one workflow its bytes. */
  lemma {:induction false} ProvenMeans(e: Setting, p: Path, content: string, render: string)
    requires NormalPrint(e, p, Some(File(content))) == NormalPrint(e, p, Some(File(render)))
    ensures Telling(SplitLines(content)) == Telling(SplitLines(render))
    ensures p !in e.formatted ==> content == render
  {
    NormalKeepsTelling(e, p, content);
    NormalKeepsTelling(e, p, render);
  }

  /** The loop of `normalize_baseline_bytes`. */
  method Squeeze(lines: seq<string>) returns (normalized: seq<string>)
    ensures normalized == Squeezed(lines, false)
  {
    normalized := [];
    var previousBlank := false;
    for k := 0 to |lines|
      invariant normalized + Squeezed(lines[k..], previousBlank) == Squeezed(lines, false)
    {
      var blank := BlankLine(lines[k]);
      assert lines[k..][1..] == lines[k + 1..];
      if blank && previousBlank { continue; }
      normalized := normalized + [lines[k]];
      previousBlank := blank;
    }
  }
}
