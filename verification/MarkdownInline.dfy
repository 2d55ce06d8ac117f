/** The inline parser: text to nodes, or the first unsupported construct and where it starts. */
module MarkdownInline {
  import opened Results
  import opened MarkdownText

  datatype Node =
    | Text(text: string)
    | Break
    | Code(text: string)
    | Link(destination: string, children: seq<Node>)
    | Em(children: seq<Node>)
    | Strong(children: seq<Node>)

  datatype Reason = RawHtml | Image | UnterminatedDestination | BadDestination | NestedLink | ReferenceLink
                  | LongRun(length: nat) | Strikethrough | CharacterReference

  datatype InlineError = InlineError(reason: Reason, offset: int)

  // ---- characters

  /** ASCII punctuation, which a backslash escapes. */
  predicate Escapable(c: char) {
    '!' <= c <= '/' || ':' <= c <= '@' || '[' <= c <= '`' || '{' <= c <= '~'
  }

  predicate IsAscii(c: char) {
    IsLetter(c) || IsDigit(c)
  }

  predicate IsHex(c: char) {
    IsDigit(c) || 'a' <= c <= 'f' || 'A' <= c <= 'F'
  }

  /** How many of this character stand in a row from `i` on. */
  function RunAt(text: string, i: nat, c: char): (n: nat)
    requires i <= |text|
    ensures i + n <= |text|
    decreases |text| - i
  {
    if i == |text| || text[i] != c then 0 else 1 + RunAt(text, i + 1, c)
  }

  // ---- scanners

  /** Just past the first run of exactly `run` backticks at or after `cursor`. */
  function SkipFrom(text: string, cursor: nat, run: nat): (r: Option<nat>)
    requires cursor <= |text|
    ensures r.Some? ==> cursor < r.value <= |text| && cursor + run <= r.value
    decreases |text| - cursor
  {
    if cursor == |text| then None
    else if text[cursor] != '`' then SkipFrom(text, cursor + 1, run)
    else
      var n := 1 + RunAt(text, cursor + 1, '`');
      if n == run then Some(cursor + n) else SkipFrom(text, cursor + n, run)
  }

  function SkipCodeSpan(text: string, index: nat): (r: Option<nat>)
    requires index <= |text|
    ensures r.Some? ==> index + 2 * RunAt(text, index, '`') <= r.value <= |text| && index < r.value
  {
    SkipFrom(text, index + RunAt(text, index, '`'), RunAt(text, index, '`'))
  }

  /** The bracket that closes the one at the start, escapes and code spans passed over. */
  function MatchingBracket(text: string, cursor: nat, depth: int): (r: Option<nat>)
    ensures r.Some? ==> cursor <= r.value < |text| && text[r.value] == ']'
    decreases |text| - cursor
  {
    if cursor >= |text| then None
    else if text[cursor] == '\\' then MatchingBracket(text, cursor + 2, depth)
    else if text[cursor] == '`' && SkipCodeSpan(text, cursor).Some? then
      MatchingBracket(text, SkipCodeSpan(text, cursor).value, depth)
    else if text[cursor] == '[' then MatchingBracket(text, cursor + 1, depth + 1)
    else if text[cursor] == ']' && depth == 1 then Some(cursor)
    else MatchingBracket(text, cursor + 1, if text[cursor] == ']' then depth - 1 else depth)
  }

  function MatchingParen(text: string, cursor: nat, depth: int): (r: Option<nat>)
    ensures r.Some? ==> cursor <= r.value < |text| && text[r.value] == ')'
    decreases |text| - cursor
  {
    if cursor >= |text| then None
    else if text[cursor] == '\\' then MatchingParen(text, cursor + 2, depth)
    else if text[cursor] == '(' then MatchingParen(text, cursor + 1, depth + 1)
    else if text[cursor] == ')' && depth == 1 then Some(cursor)
    else MatchingParen(text, cursor + 1, if text[cursor] == ')' then depth - 1 else depth)
  }

  /** What `str.isalnum` says of a character; no property of it is used. */
  type Alnum = char -> bool

  /** A run of delimiters of the opening length, after some text, that may close the emphasis. */
  predicate CanClose(alnum: Alnum, text: string, start: nat, cursor: nat, c: char, run: nat)
    requires start < cursor < |text|
  {
    var end := cursor + RunAt(text, cursor, c);
    && end - cursor == run && !IsSpace(text[cursor - 1])
    && (c == '*' || end == |text| || !(alnum(text[end]) || text[end] == '_'))
  }

  function FindCloser(alnum: Alnum, text: string, start: nat, cursor: nat, c: char, run: nat): (r: Option<nat>)
    requires start <= cursor && run > 0
    ensures r.Some? ==> start < r.value && cursor <= r.value && r.value + run <= |text| && text[r.value] == c
    decreases |text| - cursor
  {
    if cursor >= |text| then None
    else if text[cursor] == '\\' then FindCloser(alnum, text, start, cursor + 2, c, run)
    else if text[cursor] == '`' && SkipCodeSpan(text, cursor).Some? then
      FindCloser(alnum, text, start, SkipCodeSpan(text, cursor).value, c, run)
    else if text[cursor] == c then
      if cursor > start && CanClose(alnum, text, start, cursor, c, run) then Some(cursor)
      else FindCloser(alnum, text, start, cursor + 1 + RunAt(text, cursor + 1, c), c, run)
    else FindCloser(alnum, text, start, cursor + 1, c, run)
  }

  // ---- patterns

  predicate NoBreakNorAngle(s: string) {
    forall k :: 0 <= k < |s| ==> !IsSpace(s[k]) && s[k] != '<' && s[k] != '>'
  }

  predicate InUrl(c: char) {
    !IsSpace(c) && c != '<' && c != '>'
  }

  predicate InScheme(c: char) {
    IsAscii(c) || c == '+' || c == '.' || c == '-'
  }

  /** Just past an autolink `<scheme:...>` at `i`. */
  function Autolink(text: string, i: nat): (r: Option<nat>)
    requires i < |text|
    ensures r.Some? ==> i + 2 <= r.value <= |text|
  {
    if i + 1 == |text| || !IsLetter(text[i + 1]) then None
    else
      var n := Run(text[i + 2..], InScheme);
      var colon := i + 2 + n;
      if n == 0 || n > 31 || colon == |text| || text[colon] != ':' then None
      else
        var end := colon + 1 + Run(text[colon + 1..], InUrl);
        if end < |text| && text[end] == '>' then Some(end + 1) else None
  }

  /** A whole HTML tag, comment or processing instruction. */
  predicate IsInlineHtml(s: string) {
    || (|s| >= 7 && s[..4] == ['<', '!', '-', '-'] && s[|s| - 3..] == ['-', '-', '>'])
    || (|s| >= 4 && s[..2] == ['<', '?'] && s[|s| - 2..] == ['?', '>'])
    || (s != [] && s[0] == '<' && IsTag(if |s| > 1 && s[1] == '/' then s[2..] else s[1..]))
  }

  /** A tag name, perhaps white space and anything without angle brackets, perhaps a slash, and the closing bracket. */
  predicate IsTag(s: string) {
    && s != [] && IsLetter(s[0])
    && var r := Drop(s, c => IsAscii(c) || c == '-');
       || r == ['>'] || r == ['/', '>']
       || (|r| >= 2 && IsSpace(r[0]) && r[|r| - 1] == '>' && forall k :: 1 <= k < |r| - 1 ==> r[k] != '<' && r[k] != '>')
  }

  /** A whole character reference. */
  predicate IsCharacterReference(s: string) {
    && |s| >= 3 && s[0] == '&' && s[|s| - 1] == ';'
    && var m := s[1..|s| - 1];
       || (|m| >= 2 && m[0] == '#' && All(m[1..], IsDigit))
       || (|m| >= 3 && m[0] == '#' && (m[1] == 'x' || m[1] == 'X') && All(m[2..], IsHex))
       || (IsLetter(m[0]) && All(m, IsAscii))
  }

  predicate HtmlAt(text: string, i: nat) {
    exists e :: i < e <= |text| && IsInlineHtml(text[i..e])
  }

  predicate ReferenceAt(text: string, i: nat) {
    exists e :: i < e <= |text| && IsCharacterReference(text[i..e])
  }

  predicate Begins(text: string, i: nat, prefix: string) {
    i + |prefix| <= |text| && text[i..i + |prefix|] == prefix
  }

  /** Just past a bare URL at `i`. */
  function BareUrl(text: string, i: nat): (r: Option<nat>)
    requires i < |text|
    ensures r.Some? ==> i + 4 < r.value <= |text| && text[i] == 'h'
  {
    var n := if Begins(text, i, ['h', 't', 't', 'p', ':', '/', '/']) then 7
             else if Begins(text, i, ['h', 't', 't', 'p', 's', ':', '/', '/']) then 8 else 0;
    if n == 0 then None
    else
      var m := Run(text[i + n..], InUrl);
      if m == 0 then None else Some(i + n + m)
  }

  predicate IsTrailing(c: char) {
    c == '.' || c == ',' || c == ';' || c == ':' || c == '!' || c == '?' || c == '*' || c == '_' || c == '"' || c == '\''
  }

  function Trimmed(url: string): (r: string)
    ensures r <= url
  {
    DropEnd(url, IsTrailing)
  }

  /** Closing parentheses without a partner are not part of the URL either. */
  function Unparenthesised(url: string): (r: string)
    ensures r <= url
    decreases |url|
  {
    if url != [] && url[|url| - 1] == ')' && Count(url, ')') > Count(url, '(') then
      Unparenthesised(Trimmed(url[..|url| - 1]))
    else url
  }

  /** The destination between the parentheses of a link. */
  function Destination(s: string): Option<string> {
    var t := Strip(s);
    if t == [] then None
    else if t[0] == '<' then
      if |t| >= 2 && t[|t| - 1] == '>' && NoBreakNorAngle(t[1..|t| - 1]) then Some(t[1..|t| - 1]) else None
    else if NoBreakNorAngle(t) then Some(t) else None
  }

  /** The content of a code span. */
  function CodeContent(s: string): string {
    var flat := seq(|s|, k requires 0 <= k < |s| => if s[k] == '\n' then ' ' else s[k]);
    if |flat| >= 2 && flat[0] == ' ' && flat[|flat| - 1] == ' ' && !Blank(flat) then flat[1..|flat| - 1] else flat
  }

  // ---- the parser

  /** Where the loop stands: the next character, the nodes so far, and text not yet made a node. */
  datatype State = State(index: nat, nodes: seq<Node>, buffer: string)

  function Flushed(st: State): seq<Node> {
    if st.buffer == [] then st.nodes else st.nodes + [Text(st.buffer)]
  }

  /** The text read on to `index` with `more` put in the buffer. */
  function Buffered(st: State, more: string, index: nat): State {
    State(index, st.nodes, st.buffer + more)
  }

  /** The text read on to `index` with a node. */
  function Added(st: State, node: Node, index: nat): State {
    State(index, Flushed(st) + [node], [])
  }

  type Turn = Result<State, InlineError>

  predicate Advances(text: string, st: State, turn: Turn) {
    turn.Ok? ==> st.index < turn.value.index <= |text|
  }

  function EscapeTurn(text: string, st: State): (r: Turn)
    requires st.index < |text|
    ensures Advances(text, st, r)
  {
    var i := st.index;
    if i + 1 < |text| && text[i + 1] == '\n' then Ok(Added(st, Break, i + 2))
    else if i + 1 < |text| && Escapable(text[i + 1]) then Ok(Buffered(st, [text[i + 1]], i + 2))
    else Ok(Buffered(st, ['\\'], i + 1))
  }

  function CodeTurn(text: string, st: State): (r: Turn)
    requires st.index < |text| && text[st.index] == '`'
    ensures Advances(text, st, r)
  {
    var i, run := st.index, RunAt(text, st.index, '`');
    match SkipCodeSpan(text, i)
    case None => Ok(Buffered(st, text[i..i + run], i + run))
    case Some(end) => Ok(Added(st, Code(CodeContent(text[i + run..end - run])), end))
  }

  function AngleTurn(text: string, offset: int, st: State): (r: Turn)
    requires st.index < |text|
    ensures Advances(text, st, r)
  {
    var i := st.index;
    match Autolink(text, i)
    case Some(end) => Ok(Added(st, Link(text[i + 1..end - 1], [Text(text[i + 1..end - 1])]), end))
    case None => if HtmlAt(text, i) then Err(InlineError(RawHtml, offset + i)) else Ok(Buffered(st, ['<'], i + 1))
  }

  function AmpersandTurn(text: string, offset: int, st: State): (r: Turn)
    requires st.index < |text|
    ensures Advances(text, st, r)
  {
    if ReferenceAt(text, st.index) then Err(InlineError(CharacterReference, offset + st.index))
    else Ok(Buffered(st, ['&'], st.index + 1))
  }

  function NewlineTurn(text: string, st: State): (r: Turn)
    requires st.index < |text|
    ensures Advances(text, st, r)
  {
    var stripped := DropEnd(st.buffer, c => c == ' ');
    var node := if |st.buffer| - |stripped| >= 2 then Break else Text(['\n']);
    Ok(Added(State(st.index, st.nodes, stripped), node, st.index + 1))
  }

  predicate StartsUrl(alnum: Alnum, text: string, inLink: bool, i: nat)
    requires i < |text|
  {
    !inLink && BareUrl(text, i).Some? && (i == 0 || !alnum(text[i - 1]))
  }

  function UrlTurn(text: string, st: State): (r: Turn)
    requires st.index < |text| && BareUrl(text, st.index).Some?
    ensures Advances(text, st, r)
  {
    var i := st.index;
    var url := Unparenthesised(Trimmed(text[i..BareUrl(text, i).value]));
    UrlKeepsFirst(text[i..BareUrl(text, i).value]);
    Ok(Added(st, Link(url, [Text(url)]), i + |url|))
  }

  lemma {:induction false} UrlKeepsFirst(url: string)
    requires url != [] && url[0] == 'h'
    ensures Unparenthesised(Trimmed(url)) != []
  {
    TrimmedKeepsFirst(url);
    UnparenthesisedKeepsFirst(Trimmed(url));
  }

  lemma {:induction false} TrimmedKeepsFirst(url: string)
    requires url != [] && url[0] == 'h'
    ensures Trimmed(url) != []
  {
    assert Trimmed(url) == [] ==> IsTrailing(url[0]);
  }

  lemma {:induction false} UnparenthesisedKeepsFirst(url: string)
    requires url != [] && url[0] == 'h'
    ensures Unparenthesised(url) != []
    decreases |url|
  {
    if url[|url| - 1] == ')' && Count(url, ')') > Count(url, '(') {
      TrimmedKeepsFirst(url[..|url| - 1]);
      UnparenthesisedKeepsFirst(Trimmed(url[..|url| - 1]));
    }
  }

  /** What the parser decides at a bracket before it reads the link's text. */
  datatype BracketCase = NoLink | BadLink(reason: Reason) | LinkOf(close: nat, paren: nat, destination: string)

  predicate BracketFits(text: string, i: nat, at: BracketCase) {
    at.LinkOf? ==> i < at.close < at.paren < |text| && text[at.paren] == ')'
  }

  /** What it decides where an opening parenthesis follows the closing bracket. */
  function LinkAt(text: string, inLink: bool, close: nat): (r: BracketCase)
    requires close + 1 < |text| && text[close + 1] == '('
    ensures !r.NoLink? && (r.LinkOf? ==> r.close == close < r.paren < |text| && text[r.paren] == ')')
    ensures r.BadLink? ==> r.reason.UnterminatedDestination? || r.reason.BadDestination? || r.reason.NestedLink?
  {
    match MatchingParen(text, close + 1, 0)
    case None => BadLink(UnterminatedDestination)
    case Some(paren) =>
      if Destination(text[close + 2..paren]).None? then BadLink(BadDestination)
      else if inLink then BadLink(NestedLink)
      else LinkOf(close, paren, Destination(text[close + 2..paren]).value)
  }

  function BracketAt(text: string, inLink: bool, i: nat): (r: BracketCase)
    requires i < |text| && text[i] == '['
    ensures BracketFits(text, i, r)
  {
    match MatchingBracket(text, i, 0)
    case None => NoLink
    case Some(close) =>
      if close + 1 == |text| then NoLink
      else if text[close + 1] == '(' then LinkAt(text, inLink, close)
      else if text[close + 1] == '[' then BadLink(ReferenceLink)
      else NoLink
  }

  /** What the parser decides at a run of emphasis delimiters. */
  datatype RunCase = NoEmphasis(run: nat) | BadRun(run: nat) | EmphasisOf(run: nat, closer: nat)

  predicate RunFits(text: string, i: nat, at: RunCase) {
    1 <= at.run && i + at.run <= |text| && (at.EmphasisOf? ==> i + at.run < at.closer && at.closer + at.run <= |text|)
  }

  function EmphasisAt(alnum: Alnum, text: string, i: nat): (r: RunCase)
    requires i < |text|
    ensures RunFits(text, i, r)
  {
    var c := text[i];
    var run := 1 + RunAt(text, i + 1, c);
    var end := i + run;
    if end == |text| || IsSpace(text[end]) || (c != '*' && i > 0 && (alnum(text[i - 1]) || text[i - 1] == '_')) then NoEmphasis(run)
    else if run > 3 then BadRun(run)
    else
      match FindCloser(alnum, text, end, end, c, run)
      case None => NoEmphasis(run)
      case Some(closer) => EmphasisOf(run, closer)
  }

  function Emphasised(run: nat, children: seq<Node>): Node {
    if run == 1 then Em(children) else if run == 3 then Em([Strong(children)]) else Strong(children)
  }

  function BracketTurn(alnum: Alnum, text: string, offset: int, st: State, at: BracketCase): (r: Turn)
    requires st.index < |text| && BracketFits(text, st.index, at)
    ensures Advances(text, st, r)
    decreases |text|, 0, 0
  {
    var i := st.index;
    match at
    case NoLink => Ok(Buffered(st, ['['], i + 1))
    case BadLink(reason) => Err(InlineError(reason, offset + i))
    case LinkOf(close, paren, destination) =>
      match Parse(alnum, text[i + 1..close], offset + (i + 1), true)
      case Err(e) => Err(e)
      case Ok(children) => Ok(Added(st, Link(destination, children), paren + 1))
  }

  function EmphasisTurn(alnum: Alnum, text: string, offset: int, inLink: bool, st: State, at: RunCase): (r: Turn)
    requires st.index < |text| && RunFits(text, st.index, at)
    ensures Advances(text, st, r)
    decreases |text|, 0, 0
  {
    var i := st.index;
    match at
    case NoEmphasis(run) => Ok(Buffered(st, text[i..i + run], i + run))
    case BadRun(run) => Err(InlineError(LongRun(run), offset + i))
    case EmphasisOf(run, closer) =>
      match Parse(alnum, text[i + run..closer], offset + (i + run), inLink)
      case Err(e) => Err(e)
      case Ok(children) => Ok(Added(st, Emphasised(run, children), closer + run))
  }

  /** A turn at a character that opens nothing nested. */
  function PlainTurn(alnum: Alnum, text: string, offset: int, inLink: bool, st: State): (r: Turn)
    requires st.index < |text|
    ensures Advances(text, st, r)
  {
    var i, c := st.index, text[st.index];
    if Begins(text, i, ['!', '[']) then Err(InlineError(Image, offset + i))
    else if Begins(text, i, ['~', '~']) then Err(InlineError(Strikethrough, offset + i))
    else if c == '&' then AmpersandTurn(text, offset, st)
    else if c == '\n' then NewlineTurn(text, st)
    else if StartsUrl(alnum, text, inLink, i) then UrlTurn(text, st)
    else Ok(Buffered(st, [c], i + 1))
  }

  /** A turn at a character that opens no link and no emphasis. */
  function SimpleTurn(alnum: Alnum, text: string, offset: int, inLink: bool, st: State): (r: Turn)
    requires st.index < |text|
    ensures Advances(text, st, r)
  {
    var c := text[st.index];
    if c == '\\' then EscapeTurn(text, st)
    else if c == '`' then CodeTurn(text, st)
    else if c == '<' then AngleTurn(text, offset, st)
    else PlainTurn(alnum, text, offset, inLink, st)
  }

  predicate Opens(c: char) {
    c == '[' || c == '*' || c == '_'
  }

  function OpeningTurn(alnum: Alnum, text: string, offset: int, inLink: bool, st: State): (r: Turn)
    requires st.index < |text| && Opens(text[st.index])
    ensures Advances(text, st, r)
    decreases |text|, 1, 0
  {
    if text[st.index] == '[' then BracketTurn(alnum, text, offset, st, BracketAt(text, inLink, st.index))
    else EmphasisTurn(alnum, text, offset, inLink, st, EmphasisAt(alnum, text, st.index))
  }

  /** One turn of the loop. */
  function TakeTurn(alnum: Alnum, text: string, offset: int, inLink: bool, st: State): (r: Turn)
    requires st.index < |text|
    ensures Advances(text, st, r)
    decreases |text|, 2, 0
  {
    if Opens(text[st.index]) then OpeningTurn(alnum, text, offset, inLink, st) else SimpleTurn(alnum, text, offset, inLink, st)
  }

  /** The loop from a state on. */
  function ParseFrom(alnum: Alnum, text: string, offset: int, inLink: bool, st: State): Result<seq<Node>, InlineError>
    requires st.index <= |text|
    decreases |text|, 4, |text| - st.index, 1
  {
    if st.index == |text| then Ok(Flushed(st)) else GoOn(alnum, text, offset, inLink, st)
  }

  function GoOn(alnum: Alnum, text: string, offset: int, inLink: bool, st: State): Result<seq<Node>, InlineError>
    requires st.index < |text|
    decreases |text|, 4, |text| - st.index, 0
  {
    match TakeTurn(alnum, text, offset, inLink, st)
    case Err(e) => Err(e)
    case Ok(next) => ParseFrom(alnum, text, offset, inLink, next)
  }

  /** The nodes of a text that begins at `offset` of the whole. */
  function Parse(alnum: Alnum, text: string, offset: int, inLink: bool): Result<seq<Node>, InlineError>
    decreases |text|, 5, 0
  {
    ParseFrom(alnum, text, offset, inLink, State(0, [], []))
  }
}
