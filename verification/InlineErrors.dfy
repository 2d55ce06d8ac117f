/** Where the inline parser stops: code spans end at the first run of equal length, an error points at the construct
    it rejects, and escaped text always comes back as it was. */
module InlineErrors {
  import opened Results
  import opened MarkdownText
  import opened MarkdownInline

  // ---- code spans

  /** A maximal run of `n` characters `c` from `s` on. */
  predicate IsRun(text: string, s: nat, n: nat, c: char) {
    && n > 0 && s + n <= |text| && (forall k :: s <= k < s + n ==> text[k] == c)
    && (s > 0 ==> text[s - 1] != c) && (s + n < |text| ==> text[s + n] != c)
  }

  lemma {:induction false} RunAtIs(text: string, i: nat, c: char)
    requires i <= |text|
    ensures var n := RunAt(text, i, c);
            && (forall k :: i <= k < i + n ==> text[k] == c) && (i + n < |text| ==> text[i + n] != c)
    decreases |text| - i
  {
    if i < |text| && text[i] == c { RunAtIs(text, i + 1, c); }
  }

  /** Not in the middle of a run of backticks. */
  predicate Between(text: string, cursor: nat) {
    cursor >= |text| || cursor == 0 || text[cursor - 1] != '`' || text[cursor] != '`'
  }

  lemma {:induction false} SkipFromIs(text: string, cursor: nat, run: nat)
    requires cursor <= |text| && run > 0 && Between(text, cursor)
    ensures match SkipFrom(text, cursor, run)
            case Some(end) => IsRun(text, end - run, run, '`') && forall s :: cursor <= s < end - run ==> !IsRun(text, s, run, '`')
            case None => forall s :: cursor <= s ==> !IsRun(text, s, run, '`')
    decreases |text| - cursor
  {
    if cursor < |text| {
      if text[cursor] != '`' {
        SkipFromIs(text, cursor + 1, run);
        assert !IsRun(text, cursor, run, '`');
      } else {
        var n := 1 + RunAt(text, cursor + 1, '`');
        RunAtIs(text, cursor + 1, '`');
        OneRun(text, cursor, n, run);
        if n != run { SkipFromIs(text, cursor + n, run); }
      }
    }
  }

  /** From the start of a run to its end, no other run starts. */
  lemma {:induction false} OneRun(text: string, s: nat, n: nat, m: nat)
    requires m > 0 && IsRun(text, s, n, '`')
    ensures IsRun(text, s, m, '`') <==> m == n
    ensures forall t :: s < t < s + n ==> !IsRun(text, t, m, '`')
  {
    assert m < n ==> text[s + m] == '`';
    assert s + n < |text| ==> text[s + n] != '`';
    forall t | s < t < s + n ensures !IsRun(text, t, m, '`') { assert text[t - 1] == '`'; }
  }

  /** A code span opened at `i` ends with the first later run of exactly as many backticks, if there is one. */
  lemma {:induction false} CodeSpanEnds(text: string, i: nat)
    requires i < |text| && text[i] == '`'
    ensures var run := RunAt(text, i, '`');
            match SkipCodeSpan(text, i)
            case Some(end) =>
              && i + run <= end - run && IsRun(text, end - run, run, '`')
              && forall s :: i + run <= s < end - run ==> !IsRun(text, s, run, '`')
            case None => forall s :: i + run <= s ==> !IsRun(text, s, run, '`')
  {
    RunAtIs(text, i, '`');
    SkipFromIs(text, i + RunAt(text, i, '`'), RunAt(text, i, '`'));
  }

  // ---- error positions

  /** No delimiter of the same kind stands before `i`, unless escaped. */
  predicate Starts(text: string, i: nat)
    requires i < |text|
  {
    i == 0 || text[i - 1] != text[i] || (i >= 2 && text[i - 2] == '\\')
  }

  /** A whole run of `n` emphasis delimiters from `i` on, with text after it. */
  predicate IsDelimiterRun(text: string, i: nat, n: nat) {
    && n > 0 && i + n < |text| && (text[i] == '*' || text[i] == '_') && Starts(text, i)
    && (forall k :: i <= k < i + n ==> text[k] == text[i]) && text[i + n] != text[i]
  }

  /** Read in a part of the text, inside a link or not, the bracket at `i` is rejected for this reason: its matching
      bracket and what follows that are in the part. */
  predicate BadLinkIn(text: string, a: nat, b: nat, inLink: bool, i: nat, reason: Reason) {
    a <= i < b <= |text| && text[a..b][i - a] == '[' && BracketAt(text[a..b], inLink, i - a) == BadLink(reason)
  }

  ghost predicate BadLinkAt(text: string, i: nat, reason: Reason) {
    exists a: nat, b: nat, inLink :: BadLinkIn(text, a, b, inLink, i, reason)
  }

  /** The text holds at `i` what the reason names, in full and from its first character. */
  ghost predicate Rejected(text: string, i: int, reason: Reason) {
    && 0 <= i < |text|
    && match reason
       case RawHtml => HtmlAt(text, i)
       case Image => Begins(text, i, ['!', '['])
       case Strikethrough => Begins(text, i, ['~', '~'])
       case CharacterReference => ReferenceAt(text, i)
       case LongRun(n) => n > 3 && IsDelimiterRun(text, i, n)
       case _ => BadLinkAt(text, i, reason)
  }

  /** `inner` stands in `text` at `a`, and no run of emphasis delimiters crosses its start. */
  ghost predicate Within(text: string, inner: string, a: nat) {
    && a + |inner| <= |text| && text[a..a + |inner|] == inner
    && (a > 0 && inner != [] && (inner[0] == '*' || inner[0] == '_') ==> text[a - 1] != inner[0])
  }

  lemma {:induction false} WithinChar(text: string, inner: string, a: nat, k: nat)
    requires Within(text, inner, a) && k < |inner|
    ensures inner[k] == text[a + k]
  {
    assert text[a..a + |inner|][k] == text[a + k];
  }

  lemma {:induction false} WithinSlice(text: string, inner: string, a: nat, i: nat, e: nat)
    requires Within(text, inner, a) && i <= e <= |inner|
    ensures inner[i..e] == text[a + i..a + e]
  {
    forall k | i <= k < e ensures inner[k] == text[a + k] { WithinChar(text, inner, a, k); }
    assert forall k :: 0 <= k < e - i ==> inner[i..e][k] == text[a + i..a + e][k];
  }

  lemma {:induction false} RunWithin(text: string, inner: string, a: nat, i: nat, n: nat)
    requires Within(text, inner, a) && IsDelimiterRun(inner, i, n)
    ensures IsDelimiterRun(text, a + i, n)
  {
    WithinChar(text, inner, a, i);
    forall k | a + i <= k < a + i + n ensures text[k] == text[a + i] { WithinChar(text, inner, a, k - a); }
    WithinChar(text, inner, a, i + n);
    if i > 0 { WithinChar(text, inner, a, i - 1); }
    if i > 1 { WithinChar(text, inner, a, i - 2); }
  }

  lemma {:induction false} HtmlWithin(text: string, inner: string, a: nat, i: nat)
    requires Within(text, inner, a) && HtmlAt(inner, i)
    ensures HtmlAt(text, a + i)
  {
    var e :| i < e <= |inner| && IsInlineHtml(inner[i..e]);
    WithinSlice(text, inner, a, i, e);
    assert IsInlineHtml(text[a + i..a + e]);
  }

  lemma {:induction false} ReferenceWithin(text: string, inner: string, a: nat, i: nat)
    requires Within(text, inner, a) && ReferenceAt(inner, i)
    ensures ReferenceAt(text, a + i)
  {
    var e :| i < e <= |inner| && IsCharacterReference(inner[i..e]);
    WithinSlice(text, inner, a, i, e);
    assert IsCharacterReference(text[a + i..a + e]);
  }

  lemma {:induction false} BadLinkWithin(text: string, inner: string, a: nat, i: nat, reason: Reason)
    requires Within(text, inner, a) && BadLinkAt(inner, i, reason)
    ensures BadLinkAt(text, a + i, reason)
  {
    var b: nat, e: nat, inLink :| BadLinkIn(inner, b, e, inLink, i, reason);
    WithinSlice(text, inner, a, b, e);
    assert BadLinkIn(text, a + b, a + e, inLink, a + i, reason);
  }

  /** What is rejected in the inner text stands in the whole text just so. */
  lemma {:induction false} RejectedWithin(text: string, inner: string, a: nat, i: int, reason: Reason)
    requires Within(text, inner, a) && Rejected(inner, i, reason)
    ensures Rejected(text, a + i, reason)
  {
    match reason
    case RawHtml => HtmlWithin(text, inner, a, i);
    case CharacterReference => ReferenceWithin(text, inner, a, i);
    case Image => WithinSlice(text, inner, a, i, i + 2);
    case Strikethrough => WithinSlice(text, inner, a, i, i + 2);
    case LongRun(n) => RunWithin(text, inner, a, i, n);
    case _ => BadLinkWithin(text, inner, a, i, reason);
  }

  ghost predicate Points(text: string, offset: int, e: InlineError) {
    Rejected(text, e.offset - offset, e.reason)
  }

  lemma {:induction false} RejectedSame(text: string, i: int, k: int, reason: Reason)
    requires i == k && Rejected(text, i, reason)
    ensures Rejected(text, k, reason)
  {
  }

  lemma {:induction false} ChildPoints(text: string, inner: string, a: nat, offset: int, e: InlineError)
    requires Within(text, inner, a) && Points(inner, offset + a, e)
    ensures Points(text, offset, e)
  {
    var i := e.offset - (offset + a);
    assert e.offset - offset == a + i;
    RejectedWithin(text, inner, a, i, e.reason);
    RejectedSame(text, a + i, e.offset - offset, e.reason);
  }

  // ---- runs are met at their start

  /** The loop never stops inside a run of emphasis delimiters. */
  ghost predicate Fresh(text: string, i: nat) {
    i < |text| && (text[i] == '*' || text[i] == '_') ==> Starts(text, i)
  }

  lemma {:induction false} CloserRun(alnum: Alnum, text: string, start: nat, cursor: nat, c: char, run: nat)
    requires start <= cursor && run > 0
    ensures var r := FindCloser(alnum, text, start, cursor, c, run); r.Some? ==> RunAt(text, r.value, c) == run
    decreases |text| - cursor
  {
    if cursor < |text| {
      if text[cursor] == '\\' {
        CloserRun(alnum, text, start, cursor + 2, c, run);
      } else if text[cursor] == '`' && SkipCodeSpan(text, cursor).Some? {
        CloserRun(alnum, text, start, SkipCodeSpan(text, cursor).value, c, run);
      } else if text[cursor] == c {
        if !(cursor > start && CanClose(alnum, text, start, cursor, c, run)) {
          CloserRun(alnum, text, start, cursor + 1 + RunAt(text, cursor + 1, c), c, run);
        }
      } else {
        CloserRun(alnum, text, start, cursor + 1, c, run);
      }
    }
  }

  predicate EndsClean(url: string) {
    url != [] ==> !IsTrailing(url[|url| - 1])
  }

  lemma {:induction false} UrlEnds(url: string)
    requires EndsClean(url)
    ensures EndsClean(Unparenthesised(url))
    decreases |url|
  {
    if url != [] && url[|url| - 1] == ')' && Count(url, ')') > Count(url, '(') {
      var shorter := url[..|url| - 1];
      UrlEnds(Trimmed(shorter));
    }
  }

  lemma {:induction false} CodeEndsWithTick(text: string, i: nat)
    requires i < |text| && text[i] == '`'
    ensures SkipCodeSpan(text, i).Some? ==> text[SkipCodeSpan(text, i).value - 1] == '`'
  {
    CodeSpanEnds(text, i);
  }

  /** Where the loop goes on after emphasis, or after a run that is none. */
  ghost predicate RunEndsFresh(text: string, i: nat, at: RunCase) {
    match at
    case NoEmphasis(run) => Fresh(text, i + run)
    case BadRun(_) => true
    case EmphasisOf(run, closer) => Fresh(text, closer + run)
  }

  lemma {:induction false} EmphasisEnds(alnum: Alnum, text: string, i: nat)
    requires i < |text|
    ensures RunEndsFresh(text, i, EmphasisAt(alnum, text, i))
  {
    var c, at := text[i], EmphasisAt(alnum, text, i);
    RunAtIs(text, i + 1, c);
    if at.EmphasisOf? {
      CloserRun(alnum, text, i + at.run, i + at.run, c, at.run);
      RunAtIs(text, at.closer, c);
    }
  }

  lemma {:induction false} EmphasisFresh(alnum: Alnum, text: string, offset: int, inLink: bool, st: State, at: RunCase)
    requires st.index < |text| && RunFits(text, st.index, at) && RunEndsFresh(text, st.index, at)
    ensures var r := EmphasisTurn(alnum, text, offset, inLink, st, at); r.Ok? ==> Fresh(text, r.value.index)
  {
  }

  lemma {:induction false} BracketFresh(alnum: Alnum, text: string, offset: int, st: State, at: BracketCase)
    requires st.index < |text| && text[st.index] == '[' && BracketFits(text, st.index, at)
    ensures var r := BracketTurn(alnum, text, offset, st, at); r.Ok? ==> Fresh(text, r.value.index)
  {
    assert at.LinkOf? ==> Fresh(text, at.paren + 1);
  }

  lemma {:induction false} UrlFresh(text: string, i: nat)
    requires i < |text| && BareUrl(text, i).Some?
    ensures Fresh(text, i + |Unparenthesised(Trimmed(text[i..BareUrl(text, i).value]))|)
  {
    var whole := text[i..BareUrl(text, i).value];
    UrlKeepsFirst(whole);
    UrlEnds(Trimmed(whole));
    PrefixEnds(text, i, whole, Unparenthesised(Trimmed(whole)));
  }

  lemma {:induction false} PrefixEnds(text: string, i: nat, whole: string, url: string)
    requires i + |whole| <= |text| && whole == text[i..i + |whole|] && url <= whole && url != []
    requires !IsTrailing(url[|url| - 1])
    ensures Fresh(text, i + |url|)
  {
    assert text[i + |url| - 1] == whole[|url| - 1] == url[|url| - 1];
  }

  lemma {:induction false} CodeFresh(text: string, st: State)
    requires st.index < |text| && text[st.index] == '`'
    ensures Fresh(text, CodeTurn(text, st).value.index)
  {
    CodeEndsWithTick(text, st.index);
    RunAtIs(text, st.index, '`');
  }

  lemma {:induction false} AngleFresh(text: string, offset: int, st: State)
    requires st.index < |text| && text[st.index] == '<'
    ensures AngleTurn(text, offset, st).Ok? ==> Fresh(text, AngleTurn(text, offset, st).value.index)
  {
    assert Autolink(text, st.index).Some? ==> text[Autolink(text, st.index).value - 1] == '>';
  }

  lemma {:induction false} EscapeFresh(text: string, st: State)
    requires st.index < |text| && text[st.index] == '\\'
    ensures Fresh(text, EscapeTurn(text, st).value.index)
  {
  }

  lemma {:induction false} SimpleFresh(alnum: Alnum, text: string, offset: int, inLink: bool, st: State)
    requires st.index < |text| && !Opens(text[st.index])
    ensures var r := SimpleTurn(alnum, text, offset, inLink, st); r.Ok? ==> Fresh(text, r.value.index)
  {
    var c := text[st.index];
    if c == '\\' {
      EscapeFresh(text, st);
    } else if c == '`' {
      CodeFresh(text, st);
    } else if c == '<' {
      AngleFresh(text, offset, st);
    } else {
      PlainFresh(alnum, text, offset, inLink, st);
    }
  }

  lemma {:induction false} OpeningFresh(alnum: Alnum, text: string, offset: int, inLink: bool, st: State)
    requires st.index < |text| && Opens(text[st.index])
    ensures var r := OpeningTurn(alnum, text, offset, inLink, st); r.Ok? ==> Fresh(text, r.value.index)
  {
    if text[st.index] == '[' {
      BracketFresh(alnum, text, offset, st, BracketAt(text, inLink, st.index));
    } else {
      EmphasisEnds(alnum, text, st.index);
      EmphasisFresh(alnum, text, offset, inLink, st, EmphasisAt(alnum, text, st.index));
    }
  }

  lemma {:induction false} TurnFresh(alnum: Alnum, text: string, offset: int, inLink: bool, st: State)
    requires st.index < |text|
    ensures var r := TakeTurn(alnum, text, offset, inLink, st); r.Ok? ==> Fresh(text, r.value.index)
  {
    if Opens(text[st.index]) { OpeningFresh(alnum, text, offset, inLink, st); }
    else { SimpleFresh(alnum, text, offset, inLink, st); }
  }

  lemma {:induction false} UrlTurnFresh(text: string, st: State)
    requires st.index < |text| && BareUrl(text, st.index).Some?
    ensures Fresh(text, UrlTurn(text, st).value.index)
  {
    UrlFresh(text, st.index);
  }

  lemma {:induction false} PlainAdvances(alnum: Alnum, text: string, offset: int, inLink: bool, st: State)
    requires st.index < |text|
    ensures var r := PlainTurn(alnum, text, offset, inLink, st);
            r.Ok? ==> r.value.index == st.index + 1
                      || (StartsUrl(alnum, text, inLink, st.index) && r == UrlTurn(text, st))
  {
  }

  lemma {:induction false} PlainFresh(alnum: Alnum, text: string, offset: int, inLink: bool, st: State)
    requires st.index < |text| && text[st.index] != '*' && text[st.index] != '_'
    ensures var r := PlainTurn(alnum, text, offset, inLink, st); r.Ok? ==> Fresh(text, r.value.index)
  {
    PlainAdvances(alnum, text, offset, inLink, st);
    assert Fresh(text, st.index + 1);
    if StartsUrl(alnum, text, inLink, st.index) { UrlTurnFresh(text, st); }
  }

  // ---- every error points at what it rejects

  lemma {:induction false} SliceWithin(text: string, a: nat, b: nat)
    requires 0 < a <= b <= |text|
    requires a < b && (text[a] == '*' || text[a] == '_') ==> text[a - 1] != text[a]
    ensures Within(text, text[a..b], a)
  {
    assert a < b ==> text[a..b][0] == text[a];
  }

  lemma {:induction false} PointsAt(text: string, offset: int, i: nat, reason: Reason)
    requires Rejected(text, i, reason)
    ensures Points(text, offset, InlineError(reason, offset + i))
  {
    assert offset + i - offset == i;
  }

  /** Where the error of a bracket comes from. */
  lemma {:induction false} BracketErrs(alnum: Alnum, text: string, offset: int, st: State, at: BracketCase)
    requires st.index < |text| && BracketFits(text, st.index, at)
    ensures var r := BracketTurn(alnum, text, offset, st, at);
            r.Err? ==> match at
                       case NoLink => false
                       case BadLink(reason) => r.error == InlineError(reason, offset + st.index)
                       case LinkOf(close, _, _) =>
                         var inner := Parse(alnum, text[st.index + 1..close], offset + (st.index + 1), true);
                         inner.Err? && inner.error == r.error
  {
  }

  lemma {:induction false} BracketPoints(alnum: Alnum, text: string, offset: int, st: State, at: BracketCase)
    requires st.index < |text| && BracketFits(text, st.index, at)
    requires at.BadLink? ==> Points(text, offset, InlineError(at.reason, offset + st.index))
    requires at.LinkOf? ==> text[st.index] == '['
    ensures var r := BracketTurn(alnum, text, offset, st, at); r.Err? ==> Points(text, offset, r.error)
    decreases |text|, 2, 0
  {
    BracketErrs(alnum, text, offset, st, at);
    if at.LinkOf? { InnerPoints(alnum, text, offset, true, st.index + 1, at.close); }
  }

  lemma {:induction false} InnerPoints(alnum: Alnum, text: string, offset: int, inLink: bool, a: nat, b: nat)
    requires 0 < a <= b <= |text|
    requires a < b && (text[a] == '*' || text[a] == '_') ==> text[a - 1] != text[a]
    ensures var r := Parse(alnum, text[a..b], offset + a, inLink); r.Err? ==> Points(text, offset, r.error)
    decreases |text|, 1, 0
  {
    SliceWithin(text, a, b);
    ParsePoints(alnum, text[a..b], offset + a, inLink);
    ResultPoints(text, text[a..b], a, offset, Parse(alnum, text[a..b], offset + a, inLink));
  }

  lemma {:induction false} ResultPoints(text: string, inner: string, a: nat, offset: int, r: Result<seq<Node>, InlineError>)
    requires Within(text, inner, a) && (r.Err? ==> Points(inner, offset + a, r.error))
    ensures r.Err? ==> Points(text, offset, r.error)
  {
    if r.Err? { ChildPoints(text, inner, a, offset, r.error); }
  }

  lemma {:induction false} BadLinkPoints(text: string, offset: int, inLink: bool, i: nat)
    requires i < |text| && text[i] == '['
    ensures var at := BracketAt(text, inLink, i); at.BadLink? ==> Points(text, offset, InlineError(at.reason, offset + i))
  {
    var at := BracketAt(text, inLink, i);
    if at.BadLink? {
      assert text[0..|text|] == text;
      assert BadLinkIn(text, 0, |text|, inLink, i, at.reason);
      PointsAt(text, offset, i, at.reason);
    }
  }

  /** A refused run is a whole run, and no delimiter of its kind follows an accepted one. */
  ghost predicate RunIsWhole(text: string, i: nat, at: RunCase)
    requires i < |text| && RunFits(text, i, at)
  {
    && (at.BadRun? ==> Rejected(text, i, LongRun(at.run)))
    && (at.EmphasisOf? ==> text[i + at.run - 1] != text[i + at.run])
  }

  lemma {:induction false} RunMetAtStart(alnum: Alnum, text: string, i: nat)
    requires i < |text| && (text[i] == '*' || text[i] == '_') && Fresh(text, i)
    ensures RunIsWhole(text, i, EmphasisAt(alnum, text, i))
  {
    RunAtIs(text, i + 1, text[i]);
  }

  /** Where the error of a run comes from. */
  lemma {:induction false} EmphasisErrs(alnum: Alnum, text: string, offset: int, inLink: bool, st: State, at: RunCase)
    requires st.index < |text| && RunFits(text, st.index, at)
    ensures var r := EmphasisTurn(alnum, text, offset, inLink, st, at);
            r.Err? ==> match at
                       case NoEmphasis(_) => false
                       case BadRun(run) => r.error == InlineError(LongRun(run), offset + st.index)
                       case EmphasisOf(run, closer) =>
                         var inner := Parse(alnum, text[st.index + run..closer], offset + (st.index + run), inLink);
                         inner.Err? && inner.error == r.error
  {
  }

  lemma {:induction false} EmphasisPoints(alnum: Alnum, text: string, offset: int, inLink: bool, st: State, at: RunCase)
    requires st.index < |text| && RunFits(text, st.index, at) && RunIsWhole(text, st.index, at)
    ensures var r := EmphasisTurn(alnum, text, offset, inLink, st, at); r.Err? ==> Points(text, offset, r.error)
    decreases |text|, 2, 0
  {
    EmphasisErrs(alnum, text, offset, inLink, st, at);
    if at.EmphasisOf? { InnerPoints(alnum, text, offset, inLink, st.index + at.run, at.closer); }
    if at.BadRun? { PointsAt(text, offset, st.index, LongRun(at.run)); }
  }

  /** An error is the named one and its construct is there. */
  ghost predicate Names(text: string, offset: int, i: nat, r: Turn, reason: Reason, there: bool) {
    r.Err? && r.error == InlineError(reason, offset + i) && there
  }

  lemma {:induction false} AngleErrs(text: string, offset: int, st: State)
    requires st.index < |text|
    ensures var r := AngleTurn(text, offset, st); r.Err? ==> Names(text, offset, st.index, r, RawHtml, HtmlAt(text, st.index))
  {
  }

  lemma {:induction false} PlainErrs(alnum: Alnum, text: string, offset: int, inLink: bool, st: State)
    requires st.index < |text|
    ensures var i, r := st.index, PlainTurn(alnum, text, offset, inLink, st);
            r.Err? ==>
              || Names(text, offset, i, r, Image, Begins(text, i, ['!', '[']))
              || Names(text, offset, i, r, Strikethrough, Begins(text, i, ['~', '~']))
              || Names(text, offset, i, r, CharacterReference, ReferenceAt(text, i))
  {
  }

  lemma {:induction false} SimpleErrs(alnum: Alnum, text: string, offset: int, inLink: bool, st: State)
    requires st.index < |text|
    ensures var r := SimpleTurn(alnum, text, offset, inLink, st);
            r.Err? ==> r == AngleTurn(text, offset, st) || r == PlainTurn(alnum, text, offset, inLink, st)
  {
  }

  lemma {:induction false} NamedPoints(text: string, offset: int, i: nat, r: Turn, reason: Reason, there: bool)
    requires i < |text| && Names(text, offset, i, r, reason, there)
    requires there ==> Rejected(text, i, reason)
    ensures Points(text, offset, r.error)
  {
    PointsAt(text, offset, i, reason);
  }

  lemma {:induction false} AnglePoints(text: string, offset: int, st: State)
    requires st.index < |text|
    ensures var r := AngleTurn(text, offset, st); r.Err? ==> Points(text, offset, r.error)
  {
    AngleErrs(text, offset, st);
    var i, r := st.index, AngleTurn(text, offset, st);
    if r.Err? { NamedPoints(text, offset, i, r, RawHtml, HtmlAt(text, i)); }
  }

  lemma {:induction false} PlainPoints(alnum: Alnum, text: string, offset: int, inLink: bool, st: State)
    requires st.index < |text|
    ensures var r := PlainTurn(alnum, text, offset, inLink, st); r.Err? ==> Points(text, offset, r.error)
  {
    PlainErrs(alnum, text, offset, inLink, st);
    var i, r := st.index, PlainTurn(alnum, text, offset, inLink, st);
    if r.Err? { PlainNamed(text, offset, i, r); }
  }

  lemma {:induction false} PlainNamed(text: string, offset: int, i: nat, r: Turn)
    requires i < |text|
    requires || Names(text, offset, i, r, Image, Begins(text, i, ['!', '[']))
             || Names(text, offset, i, r, Strikethrough, Begins(text, i, ['~', '~']))
             || Names(text, offset, i, r, CharacterReference, ReferenceAt(text, i))
    ensures Points(text, offset, r.error)
  {
    if r.error.reason.Image? { NamedPoints(text, offset, i, r, Image, Begins(text, i, ['!', '['])); }
    else if r.error.reason.Strikethrough? { NamedPoints(text, offset, i, r, Strikethrough, Begins(text, i, ['~', '~'])); }
    else { NamedPoints(text, offset, i, r, CharacterReference, ReferenceAt(text, i)); }
  }

  lemma {:induction false} SimplePoints(alnum: Alnum, text: string, offset: int, inLink: bool, st: State)
    requires st.index < |text|
    ensures var r := SimpleTurn(alnum, text, offset, inLink, st); r.Err? ==> Points(text, offset, r.error)
  {
    AnglePoints(text, offset, st);
    PlainPoints(alnum, text, offset, inLink, st);
    SimpleErrs(alnum, text, offset, inLink, st);
    SamePoints(text, offset, SimpleTurn(alnum, text, offset, inLink, st), AngleTurn(text, offset, st));
    SamePoints(text, offset, SimpleTurn(alnum, text, offset, inLink, st), PlainTurn(alnum, text, offset, inLink, st));
  }

  lemma {:induction false} SamePoints(text: string, offset: int, r: Turn, s: Turn)
    requires s.Err? ==> Points(text, offset, s.error)
    ensures r == s && r.Err? ==> Points(text, offset, r.error)
  {
  }

  lemma {:induction false} OpeningPoints(alnum: Alnum, text: string, offset: int, inLink: bool, st: State)
    requires st.index < |text| && Opens(text[st.index]) && Fresh(text, st.index)
    ensures var r := OpeningTurn(alnum, text, offset, inLink, st); r.Err? ==> Points(text, offset, r.error)
    decreases |text|, 3, 0
  {
    if text[st.index] == '[' {
      BadLinkPoints(text, offset, inLink, st.index);
      BracketPoints(alnum, text, offset, st, BracketAt(text, inLink, st.index));
    } else {
      RunMetAtStart(alnum, text, st.index);
      EmphasisPoints(alnum, text, offset, inLink, st, EmphasisAt(alnum, text, st.index));
    }
  }

  lemma {:induction false} TurnPoints(alnum: Alnum, text: string, offset: int, inLink: bool, st: State)
    requires st.index < |text| && Fresh(text, st.index)
    ensures var r := TakeTurn(alnum, text, offset, inLink, st); r.Err? ==> Points(text, offset, r.error)
    decreases |text|, 4, 0
  {
    if Opens(text[st.index]) { OpeningPoints(alnum, text, offset, inLink, st); }
    else { SimplePoints(alnum, text, offset, inLink, st); }
  }

  lemma {:induction false} FromPoints(alnum: Alnum, text: string, offset: int, inLink: bool, st: State)
    requires st.index <= |text| && Fresh(text, st.index)
    ensures var r := ParseFrom(alnum, text, offset, inLink, st); r.Err? ==> Points(text, offset, r.error)
    decreases |text|, 5, |text| - st.index
  {
    if st.index < |text| {
      TurnPoints(alnum, text, offset, inLink, st);
      TurnFresh(alnum, text, offset, inLink, st);
      OneTurn(alnum, text, offset, inLink, st);
      var turn := TakeTurn(alnum, text, offset, inLink, st);
      if turn.Ok? { FromPoints(alnum, text, offset, inLink, turn.value); }
    }
  }

  lemma {:induction false} OneTurn(alnum: Alnum, text: string, offset: int, inLink: bool, st: State)
    requires st.index < |text|
    ensures ParseFrom(alnum, text, offset, inLink, st)
         == match TakeTurn(alnum, text, offset, inLink, st)
            case Err(e) => Err(e)
            case Ok(next) => ParseFrom(alnum, text, offset, inLink, next)
  {
    assert ParseFrom(alnum, text, offset, inLink, st) == GoOn(alnum, text, offset, inLink, st);
  }

  /** Whatever the nesting, an error's offset is a position of the outermost text, and the rejected construct stands
      there, in full, from its first character on. */
  lemma {:induction false} ParsePoints(alnum: Alnum, text: string, offset: int, inLink: bool)
    ensures var r := Parse(alnum, text, offset, inLink); r.Err? ==> Points(text, offset, r.error)
    decreases |text|, 6, 0
  {
    FromPoints(alnum, text, offset, inLink, State(0, [], []));
  }
}
