/** Characters and line shapes of the Markdown subset: each function below is one regular expression or string
    method of the parser, told directly. Lines carry no newline. */
module MarkdownText {
  import opened Results

  /** `str.isspace` for one character. */
  predicate IsSpace(c: char) {
    || c == ' ' || '\t' <= c <= '\r' || '\U{1c}' <= c <= '\U{1f}'
    || c == '\U{85}' || c == '\U{a0}' || c == '\U{1680}' || '\U{2000}' <= c <= '\U{200a}'
    || c == '\U{2028}' || c == '\U{2029}' || c == '\U{202f}' || c == '\U{205f}' || c == '\U{3000}'
  }

  predicate IsTabOrSpace(c: char) {
    c == ' ' || c == '\t'
  }

  predicate IsLetter(c: char) {
    'a' <= c <= 'z' || 'A' <= c <= 'Z'
  }

  predicate IsDigit(c: char) {
    '0' <= c <= '9'
  }

  predicate All(s: string, p: char -> bool) {
    forall i :: 0 <= i < |s| ==> p(s[i])
  }

  /** Length of the longest prefix whose characters satisfy `p`. */
  function Run(s: string, p: char -> bool): (n: nat)
    ensures n <= |s| && All(s[..n], p) && (n < |s| ==> !p(s[n]))
  {
    if s == [] || !p(s[0]) then 0 else 1 + Run(s[1..], p)
  }

  lemma {:induction false} RunIs(s: string, p: char -> bool, n: nat)
    requires n <= |s| && (forall k :: 0 <= k < n ==> p(s[k])) && (n < |s| ==> !p(s[n]))
    ensures Run(s, p) == n
  {
    if n > 0 { RunIs(s[1..], p, n - 1); }
  }

  function Drop(s: string, p: char -> bool): string {
    s[Run(s, p)..]
  }

  function LStrip(s: string): (r: string)
    ensures |r| <= |s|
  {
    Drop(s, IsSpace)
  }

  /** Drop trailing characters that satisfy `p`. */
  function DropEnd(s: string, p: char -> bool): (r: string)
    ensures r <= s && (r != [] ==> !p(r[|r| - 1])) && All(s[|r|..], p)
  {
    if s == [] || !p(s[|s| - 1]) then s else DropEnd(s[..|s| - 1], p)
  }

  function RStrip(s: string): string {
    DropEnd(s, IsSpace)
  }

  function Strip(s: string): string {
    RStrip(LStrip(s))
  }

  predicate Blank(s: string) {
    All(s, IsSpace)
  }

  function Indent(s: string): (n: nat)
    ensures n <= |s|
  {
    Run(s, c => c == ' ')
  }

  predicate StartsWith(s: string, prefix: string) {
    prefix <= s
  }

  /** What follows at most three spaces of indentation; `None` if there are more. */
  function Body(s: string): Option<string> {
    if Indent(s) <= 3 then Some(s[Indent(s)..]) else None
  }

  // ---- fences, headings, rules

  datatype FenceMark = FenceMark(indent: nat, mark: char, length: nat, info: string)

  function Fence(s: string): Option<FenceMark> {
    match Body(s)
    case None => None
    case Some(t) =>
      if t == [] || (t[0] != '`' && t[0] != '~') then None
      else
        var n := Run(t, c => c == t[0]);
        if n < 3 || '`' in t[n..] then None
        else Some(FenceMark(Indent(s), t[0], n, DropEnd(Drop(t[n..], IsTabOrSpace), IsTabOrSpace)))
  }

  datatype FenceRun = FenceRun(mark: char, length: nat)

  /** A line that is nothing but a run of fence characters. */
  function Closing(s: string): Option<FenceRun> {
    match Body(s)
    case None => None
    case Some(t) =>
      if t == [] || (t[0] != '`' && t[0] != '~') || !All(Drop(t, c => c == t[0]), IsTabOrSpace) then None
      else Some(FenceRun(t[0], Run(t, c => c == t[0])))
  }

  datatype HeadingMark = HeadingMark(level: nat, text: string)

  /** An optional closing run of hashes, set off by a blank, and trailing blanks. */
  predicate HeadingTail(s: string) {
    || All(s, IsTabOrSpace)
    || (s != [] && IsTabOrSpace(s[0])
        && var u := Drop(s, IsTabOrSpace);
           u != [] && u[0] == '#' && All(Drop(u, c => c == '#'), IsTabOrSpace))
  }

  /** The shortest prefix of `s` from position `k` on that leaves a heading tail. */
  function HeadingText(s: string, k: nat := 0): string
    requires k <= |s|
    decreases |s| - k
  {
    if HeadingTail(s[k..]) then s[..k] else HeadingText(s, k + 1)
  }

  function HeadingOf(s: string): Option<HeadingMark> {
    match Body(s)
    case None => None
    case Some(t) =>
      var n := Run(t, c => c == '#');
      if n < 1 || n > 6 then None
      else if n < |t| && !IsTabOrSpace(t[n]) then None
      else Some(HeadingMark(n, Strip(HeadingText(Drop(t[n..], IsTabOrSpace)))))
  }

  function Count(s: string, c: char): nat {
    if s == [] then 0 else (if s[0] == c then 1 else 0) + Count(s[1..], c)
  }

  predicate IsRule(s: string) {
    match Body(s)
    case None => false
    case Some(t) =>
      t != [] && (t[0] == '-' || t[0] == '*' || t[0] == '_')
      && All(t, c => c == t[0] || IsTabOrSpace(c)) && Count(t, t[0]) >= 3
  }

  predicate IsSetext(s: string) {
    match Body(s)
    case None => false
    case Some(t) => t != [] && (t[0] == '=' || t[0] == '-') && All(Drop(t, c => c == t[0]), IsTabOrSpace)
  }

  // ---- quotes and lists

  predicate IsQuote(s: string) {
    match Body(s)
    case None => false
    case Some(t) => t != [] && t[0] == '>'
  }

  /** The line without its quote marker and the one space after it. */
  function Unquote(s: string): (r: string)
    requires IsQuote(s)
    ensures |r| < |s|
  {
    var t := Body(s).value[1..];
    if t != [] && t[0] == ' ' then t[1..] else t
  }

  datatype ListMark = ListMark(indent: nat, marker: string, spaces: nat, rest: string)

  function MarkerLength(t: string): nat {
    if t == [] then 0
    else if t[0] == '-' || t[0] == '*' || t[0] == '+' then 1
    else
      var d := Run(t, IsDigit);
      if 1 <= d <= 9 && d < |t| && (t[d] == '.' || t[d] == ')') then d + 1 else 0
  }

  function ListItem(s: string): (r: Option<ListMark>)
    ensures r.Some? ==> 0 < |r.value.marker| && r.value.indent + |r.value.marker| + r.value.spaces + |r.value.rest| == |s|
  {
    match Body(s)
    case None => None
    case Some(t) =>
      var n := MarkerLength(t);
      if n == 0 || n > |t| then None
      else
        var spaces := Indent(t[n..]);
        if spaces == 0 && n < |t| then None
        else Some(ListMark(Indent(s), t[..n], spaces, t[n + spaces..]))
  }

  predicate IsOrdered(m: ListMark) {
    m.marker != [] && IsDigit(m.marker[0])
  }

  /** What two items of one list share: the bullet, or the delimiter after the number. */
  function ListKind(m: ListMark): char
    requires m.marker != []
  {
    m.marker[|m.marker| - 1]
  }

  function Number(digits: string): nat
    requires All(digits, IsDigit)
  {
    if digits == [] then 0 else 10 * Number(digits[..|digits| - 1]) + (digits[|digits| - 1] - '0') as nat
  }

  // ---- what may not continue a paragraph

  predicate Interrupts(s: string) {
    || Fence(s).Some? || HeadingOf(s).Some? || IsQuote(s) || IsRule(s)
    || (ListItem(s).Some? && !Blank(ListItem(s).value.rest)
        && (!IsOrdered(ListItem(s).value) || ListItem(s).value.marker[..|ListItem(s).value.marker| - 1] == "1"))
  }

  // ---- reference definitions, HTML, alerts, task marks

  predicate IsReference(s: string) {
    match Body(s)
    case None => false
    case Some(t) =>
      t != [] && t[0] == '['
      && var n := Run(t[1..], c => c != ']');
         n >= 1 && n + 2 < |t| && t[n + 2] == ':'
         && var u := Drop(t[n + 3..], IsTabOrSpace); u != [] && !IsSpace(u[0])
  }

  predicate IsHtml(s: string) {
    match Body(s)
    case None => false
    case Some(t) =>
      t != [] && t[0] == '<'
      && (var u := t[1..];
          || StartsWith(u, "!--")
          || (u != [] && u[0] == '?')
          || (|u| > 1 && u[0] == '!' && IsLetter(u[1]))
          || (var v := if u != [] && u[0] == '/' then u[1..] else u;
              v != [] && IsLetter(v[0])
              && var w := Drop(v, c => IsLetter(c) || IsDigit(c) || c == '-');
                 w == [] || IsTabOrSpace(w[0]) || w[0] == '/' || w[0] == '>'))
  }

  /** The word of `[!WORD]` alone on a line. */
  function AlertWord(s: string): Option<string> {
    if !StartsWith(s, "[!") then None
    else
      var n := Run(s[2..], IsLetter);
      if n >= 1 && n + 2 < |s| && s[n + 2] == ']' && All(s[n + 3..], IsTabOrSpace) then Some(s[2..n + 2]) else None
  }

  /** Whether a paragraph starts with a task mark `[ ]` or `[x]`, and how long the mark with its spaces is. */
  function TaskMark(s: string): Option<(bool, nat)> {
    if |s| >= 4 && s[0] == '[' && (s[1] == ' ' || s[1] == 'x' || s[1] == 'X') && s[2] == ']' && s[3] == ' '
    then Some((s[1] != ' ', 3 + Indent(s[3..]))) else None
  }

  // ---- table rows

  /** One cell of a delimiter row at the start of `s`: optional colons around dashes, blanks around; the rest. */
  function DelimiterCell(s: string): (r: Option<string>)
    ensures r.Some? ==> |r.value| < |s|
  {
    var a := Drop(s, IsTabOrSpace);
    var b := if a != [] && a[0] == ':' then a[1..] else a;
    if b == [] || b[0] != '-' then None
    else
      var c := Drop(b, c => c == '-');
      var d := if c != [] && c[0] == ':' then c[1..] else c;
      Some(Drop(d, IsTabOrSpace))
  }

  predicate DelimiterCells(s: string)
    decreases |s|
  {
    match DelimiterCell(s)
    case None => false
    case Some(rest) =>
      || rest == []
      || (rest[0] == '|' && (All(rest[1..], IsTabOrSpace) || DelimiterCells(rest[1..])))
  }

  predicate IsDelimiterRow(s: string) {
    var t := s[if Indent(s) <= 3 then Indent(s) else 3..];
    DelimiterCells(if t != [] && t[0] == '|' then t[1..] else t)
  }

  /** The row without its outer pipes; a final escaped pipe stays. */
  function RowBody(line: string): string {
    var s := Strip(line);
    var t := if s != [] && s[0] == '|' then s[1..] else s;
    if t != [] && t[|t| - 1] == '|' && !(|t| >= 2 && t[|t| - 2] == '\\') then t[..|t| - 1] else t
  }

  /** The cells from position `i` on, `cell` being what the current one holds so far. */
  function CellsFrom(s: string, i: nat, cell: string): seq<string>
    requires i <= |s|
    decreases |s| - i
  {
    if i == |s| then [Strip(cell)]
    else if s[i] == '\\' && i + 1 < |s| && s[i + 1] == '|' then CellsFrom(s, i + 2, cell + ['|'])
    else if s[i] == '|' then [Strip(cell)] + CellsFrom(s, i + 1, [])
    else CellsFrom(s, i + 1, cell + [s[i]])
  }

  function SplitRow(line: string): seq<string> {
    CellsFrom(RowBody(line), 0, [])
  }

  /** `_split_row` as the loop it is. */
  method SplitRowCells(line: string) returns (cells: seq<string>)
    ensures cells == SplitRow(line)
  {
    var s := RowBody(line);
    cells := [];
    var cell: string := [];
    var i := 0;
    while i < |s|
      invariant i <= |s|
      invariant cells + CellsFrom(s, i, cell) == SplitRow(line)
    {
      if s[i] == '\\' && i + 1 < |s| && s[i + 1] == '|' {
        cell := cell + ['|'];
        i := i + 2;
        continue;
      }
      if s[i] == '|' {
        cells := cells + [Strip(cell)];
        cell := [];
      } else {
        cell := cell + [s[i]];
      }
      i := i + 1;
    }
    cells := cells + [Strip(cell)];
  }
}
