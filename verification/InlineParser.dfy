/** The inline parser's loops, each computing its function of `MarkdownInline`. */
module InlineParser {
  import opened Results
  import MarkdownText
  import opened MarkdownInline

  method CountRun(text: string, index: nat, c: char) returns (run: nat)
    requires index <= |text|
    ensures run == RunAt(text, index, c)
  {
    run := 0;
    while index + run < |text| && text[index + run] == c
      invariant index + run <= |text| && run + RunAt(text, index + run, c) == RunAt(text, index, c)
    {
      run := run + 1;
    }
  }

  method SkipSpan(text: string, index: nat) returns (r: Option<nat>)
    requires index < |text| && text[index] == '`'
    ensures r == SkipCodeSpan(text, index)
  {
    var run := CountRun(text, index, '`');
    var cursor := index + run;
    while cursor < |text|
      invariant cursor <= |text| && SkipFrom(text, cursor, run) == SkipCodeSpan(text, index)
    {
      if text[cursor] == '`' {
        var n := CountRun(text, cursor, '`');
        if n == run { return Some(cursor + n); }
        cursor := cursor + n;
      } else {
        cursor := cursor + 1;
      }
    }
    return None;
  }

  method FindBracket(text: string, index: nat) returns (r: Option<nat>)
    ensures r == MatchingBracket(text, index, 0)
  {
    var depth, cursor := 0, index;
    while cursor < |text|
      invariant MatchingBracket(text, cursor, depth) == MatchingBracket(text, index, 0)
      decreases |text| - cursor
    {
      var c := text[cursor];
      if c == '\\' {
        cursor := cursor + 2;
        continue;
      }
      if c == '`' {
        var skipped := SkipSpan(text, cursor);
        if skipped.Some? {
          cursor := skipped.value;
          continue;
        }
      }
      if c == '[' {
        depth := depth + 1;
      } else if c == ']' {
        depth := depth - 1;
        if depth == 0 { return Some(cursor); }
      }
      cursor := cursor + 1;
    }
    return None;
  }

  method FindParen(text: string, index: nat) returns (r: Option<nat>)
    ensures r == MatchingParen(text, index, 0)
  {
    var depth, cursor := 0, index;
    while cursor < |text|
      invariant MatchingParen(text, cursor, depth) == MatchingParen(text, index, 0)
      decreases |text| - cursor
    {
      var c := text[cursor];
      if c == '\\' {
        cursor := cursor + 2;
        continue;
      }
      if c == '(' {
        depth := depth + 1;
      } else if c == ')' {
        depth := depth - 1;
        if depth == 0 { return Some(cursor); }
      }
      cursor := cursor + 1;
    }
    return None;
  }

  method FindEmphasisCloser(alnum: Alnum, text: string, start: nat, c: char, run: nat) returns (r: Option<nat>)
    requires run > 0 && c != '`' && c != '\\'
    ensures r == FindCloser(alnum, text, start, start, c, run)
  {
    var cursor := start;
    while cursor < |text|
      invariant start <= cursor && FindCloser(alnum, text, start, cursor, c, run) == FindCloser(alnum, text, start, start, c, run)
      decreases |text| - cursor
    {
      if text[cursor] == '\\' {
        cursor := cursor + 2;
        continue;
      }
      if text[cursor] == '`' {
        var skipped := SkipSpan(text, cursor);
        if skipped.Some? {
          cursor := skipped.value;
          continue;
        }
      }
      if text[cursor] == c {
        var length := CountRun(text, cursor, c);
        if cursor > start && CanClose(alnum, text, start, cursor, c, run) { return Some(cursor); }
        cursor := cursor + length;
      } else {
        cursor := cursor + 1;
      }
    }
    return None;
  }

  method ParseInline(alnum: Alnum, text: string, offset: int, inLink: bool) returns (r: Result<seq<Node>, InlineError>)
    ensures r == Parse(alnum, text, offset, inLink)
    decreases |text|, 2
  {
    var st := State(0, [], []);
    while st.index < |text|
      invariant st.index <= |text| && ParseFrom(alnum, text, offset, inLink, st) == Parse(alnum, text, offset, inLink)
      decreases |text| - st.index
    {
      var turn := ParseTurn(alnum, text, offset, inLink, st);
      assert ParseFrom(alnum, text, offset, inLink, st) == GoOn(alnum, text, offset, inLink, st);
      if turn.Err? { return Err(turn.error); }
      st := turn.value;
    }
    return Ok(Flushed(st));
  }

  /** One turn of the loop: what stands at the next character. */
  method ParseTurn(alnum: Alnum, text: string, offset: int, inLink: bool, st: State) returns (turn: Turn)
    requires st.index < |text|
    ensures turn == TakeTurn(alnum, text, offset, inLink, st)
    decreases |text|, 1
  {
    var c := text[st.index];
    if c == '[' {
      var at := DecideBracket(text, inLink, st.index);
      turn := ParseBracket(alnum, text, offset, st, at);
    } else if c == '*' || c == '_' {
      var at := DecideEmphasis(alnum, text, st.index);
      turn := ParseEmphasis(alnum, text, offset, inLink, st, at);
    } else {
      turn := SimpleTurn(alnum, text, offset, inLink, st);
    }
  }

  method DecideBracket(text: string, inLink: bool, i: nat) returns (at: BracketCase)
    requires i < |text| && text[i] == '['
    ensures at == BracketAt(text, inLink, i)
  {
    var close := FindBracket(text, i);
    if close.None? || close.value + 1 == |text| { return NoLink; }
    var following := text[close.value + 1];
    if following == '(' {
      at := DecideLink(text, inLink, close.value);
    } else {
      at := if following == '[' then BadLink(ReferenceLink) else NoLink;
    }
  }

  method DecideLink(text: string, inLink: bool, close: nat) returns (at: BracketCase)
    requires close + 1 < |text| && text[close + 1] == '('
    ensures at == LinkAt(text, inLink, close)
  {
    var paren := FindParen(text, close + 1);
    if paren.None? { return BadLink(UnterminatedDestination); }
    var destination := Destination(text[close + 2..paren.value]);
    if destination.None? { return BadLink(BadDestination); }
    if inLink { return BadLink(NestedLink); }
    return LinkOf(close, paren.value, destination.value);
  }

  method ParseBracket(alnum: Alnum, text: string, offset: int, st: State, at: BracketCase) returns (r: Turn)
    requires st.index < |text| && BracketFits(text, st.index, at)
    ensures r == BracketTurn(alnum, text, offset, st, at)
    decreases |text|, 0
  {
    var i := st.index;
    match at
    case NoLink => r := Ok(Buffered(st, ['['], i + 1));
    case BadLink(reason) => r := Err(InlineError(reason, offset + i));
    case LinkOf(close, paren, destination) =>
      var children := ParseInline(alnum, text[i + 1..close], offset + (i + 1), true);
      if children.Err? { return Err(children.error); }
      r := Ok(Added(st, Link(destination, children.value), paren + 1));
  }

  method DecideEmphasis(alnum: Alnum, text: string, i: nat) returns (at: RunCase)
    requires i < |text| && (text[i] == '*' || text[i] == '_')
    ensures at == EmphasisAt(alnum, text, i)
  {
    var c := text[i];
    var run := CountRun(text, i, c);
    var end := i + run;
    var opener := end < |text| && !MarkdownText.IsSpace(text[end])
                  && (c == '*' || !(i > 0 && (alnum(text[i - 1]) || text[i - 1] == '_')));
    if !opener { return NoEmphasis(run); }
    if run > 3 { return BadRun(run); }
    var closer := FindEmphasisCloser(alnum, text, end, c, run);
    return if closer.None? then NoEmphasis(run) else EmphasisOf(run, closer.value);
  }

  method ParseEmphasis(alnum: Alnum, text: string, offset: int, inLink: bool, st: State, at: RunCase) returns (r: Turn)
    requires st.index < |text| && RunFits(text, st.index, at)
    ensures r == EmphasisTurn(alnum, text, offset, inLink, st, at)
    decreases |text|, 0
  {
    var i := st.index;
    match at
    case NoEmphasis(run) => r := Ok(Buffered(st, text[i..i + run], i + run));
    case BadRun(run) => r := Err(InlineError(LongRun(run), offset + i));
    case EmphasisOf(run, closer) =>
      var children := ParseInline(alnum, text[i + run..closer], offset + (i + run), inLink);
      if children.Err? { return Err(children.error); }
      r := Ok(Added(st, Emphasised(run, children.value), closer + run));
  }
}
