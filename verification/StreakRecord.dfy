/** The failure streak of a project, kept as a machine-readable block at the end of an issue body. */
module StreakRecord {
  import opened Results

  datatype Streak = Streak(repository: string, failures: int, firstRelease: string, lastRelease: string, category: string,
                           reason: string, updated: string)

  /** What JSON reading makes of the block; only that it undoes `Dumps` is relied on. */
  type Loads = string -> Option<Streak>

  ghost predicate ReadsBack(loads: Loads) {
    forall s :: loads(Dumps(s)) == Some(s)
  }

  predicate IsSpace(c: char) {
    c == ' ' || '\t' <= c <= '\r'
  }

  predicate OneLine(s: string) {
    '\n' !in s
  }

  /** The fields that stand on lines of their own. */
  predicate FieldsOneLine(s: Streak) {
    OneLine(s.repository) && OneLine(s.firstRelease) && OneLine(s.lastRelease) && OneLine(s.category) && OneLine(s.reason)
  }

  // ---- JSON

  function Digits(n: nat): string {
    (if n < 10 then [] else Digits(n / 10)) + ["0123456789"[n % 10]]
  }

  function Decimal(n: int): string {
    if n < 0 then ['-'] + Digits(-n) else Digits(n)
  }

  function Escaped(c: char): (r: string)
    ensures r != []
  {
    if c == '"' then "\\\""
    else if c == '\\' then "\\\\"
    else if c == '\n' then "\\n"
    else if c == '\r' then "\\r"
    else if c == '\t' then "\\t"
    else if c as int == 8 then "\\b"
    else if c as int == 12 then "\\f"
    else if c < ' ' then ['\\', 'u', '0', '0', "01"[c as int / 16], "0123456789abcdef"[c as int % 16]]
    else [c]
  }

  function Escape(s: string): string {
    if s == [] then [] else Escaped(s[0]) + Escape(s[1..])
  }

  function Quoted(s: string): string {
    ['"'] + (Escape(s) + ['"'])
  }

  function Key(k: string): string {
    ['"'] + (k + "\": ")
  }

  datatype Json = Number(number: int) | Text(text: string)

  function Print(j: Json): string {
    match j case Number(n) => Decimal(n) case Text(t) => Quoted(t)
  }

  type Entry = (string, Json)

  /** Keys and values, each pair closed by a comma. */
  function Listed(entries: seq<Entry>): string {
    if entries == [] then [] else Key(entries[0].0) + (Print(entries[0].1) + (", " + Listed(entries[1..])))
  }

  /** The entries before the repository, in the order of their keys. */
  function Entries(s: Streak): seq<Entry> {
    [("consecutive_failures", Number(s.failures)), ("first_failed_release", Text(s.firstRelease)), ("last_category", Text(s.category)),
     ("last_failed_release", Text(s.lastRelease)), ("last_reason", Text(s.reason)), ("last_updated", Text(s.updated))]
  }

  function Ending(s: Streak): string {
    Quoted(s.repository) + (", " + (Key("schema_version") + "1}"))
  }

  function Dumps(s: Streak): string {
    (['{'] + Listed(Entries(s))) + (Key("repository") + Ending(s))
  }

  // ---- the body

  function Word(): string { "rollout-failure-streak-state" }

  function Above(s: Streak): seq<string> {
    ["Managed rollout has failed **" + Decimal(s.failures) + ("** consecutive attempt(s) against `" + s.repository + "`."),
     "",
     "| Field | Value |",
     "| --- | --- |",
     "| Consecutive failures | " + Decimal(s.failures) + " |"]
  }

  function Rows(s: Streak): seq<string> {
    ["| First failed release | " + s.firstRelease + " |",
     "| Last failed release | " + s.lastRelease + " |",
     "| Last category | " + s.category + " |",
     "| Last reason | " + s.reason + " |"]
  }

  function Upkeep(): string {
    "This issue is maintained automatically " + "by `scripts/rollout_failure_streak.py`. "
  }

  function Outlook(): string {
    "It closes itself the next time this " + ("project's managed " + "rollout preparation succeeds.")
  }

  function Below(): seq<string> {
    ["", Upkeep() + Outlook(), ""]
  }

  /** Each line and its newline. */
  function Told(lines: seq<string>): string {
    if lines == [] then [] else lines[0] + ['\n'] + Told(lines[1..])
  }

  function Render(s: Streak): string {
    Told(Above(s) + Rows(s) + Below() + ["<!-- " + Word(), Dumps(s), "-->"])
  }

  // ---- reading

  predicate Begins(text: string, i: nat, prefix: string) {
    i + |prefix| <= |text| && forall k :: 0 <= k < |prefix| ==> text[i + k] == prefix[k]
  }

  function SpacesAt(text: string, i: nat): (n: nat)
    requires i <= |text|
    ensures i + n <= |text| && (forall k :: i <= k < i + n ==> IsSpace(text[k])) && (i + n < |text| ==> !IsSpace(text[i + n]))
    decreases |text| - i
  {
    if i == |text| || !IsSpace(text[i]) then 0 else 1 + SpacesAt(text, i + 1)
  }

  /** Just past the first line of a block of this name at `i`. */
  function HeaderEnd(name: string, text: string, i: nat): (r: Option<nat>)
    requires i <= |text|
    ensures r.Some? ==> i + 4 < r.value <= |text|
  {
    if !Begins(text, i, ['<', '!', '-', '-']) then None
    else
      var j := i + 4 + SpacesAt(text, i + 4);
      var e := j + |name|;
      if Begins(text, j, name) && e < |text| && text[e] == '\n' then Some(e + 1) else None
  }

  function Closing(): string {
    ['\n', '-', '-', '>']
  }

  function ClosingFrom(text: string, k: nat): (r: Option<nat>)
    requires k <= |text|
    ensures r.Some? ==> k <= r.value <= |text|
    decreases |text| - k
  {
    if Begins(text, k, Closing()) then Some(k) else if k == |text| then None else ClosingFrom(text, k + 1)
  }

  /** The content of a block at `i`. */
  function BlockAt(name: string, text: string, i: nat): Option<string>
    requires i <= |text|
  {
    match HeaderEnd(name, text, i)
    case None => None
    case Some(k) => if ClosingFrom(text, k).Some? then Some(text[k..ClosingFrom(text, k).value]) else None
  }

  /** The content of the first block from `i` on. */
  function BlockFrom(name: string, text: string, i: nat): Option<string>
    requires i <= |text|
    decreases |text| - i
  {
    if BlockAt(name, text, i).Some? then BlockAt(name, text, i) else if i == |text| then None else BlockFrom(name, text, i + 1)
  }

  function Parse(loads: Loads, text: string): Option<Streak> {
    match BlockFrom(Word(), text, 0)
    case None => None
    case Some(json) => loads(json)
  }

  // ---- the round trip

  /** No line ends as the name of the block does. */
  ghost predicate NoLineEnds(text: string) {
    forall k :: 0 < k < |text| && text[k] == '\n' ==> text[k - 1] != 'e'
  }

  predicate Worded(line: string) {
    OneLine(line) && (line != [] ==> line[|line| - 1] != 'e')
  }

  lemma {:induction false} ToldLines(lines: seq<string>)
    requires forall k :: 0 <= k < |lines| ==> Worded(lines[k])
    ensures NoLineEnds(Told(lines))
  {
    if lines != [] {
      ToldLines(lines[1..]);
      var line, rest := lines[0], Told(lines[1..]);
      assert Told(lines) == line + ['\n'] + rest;
      forall k | 0 < k < |Told(lines)| && Told(lines)[k] == '\n' ensures Told(lines)[k - 1] != 'e' {
        if k > |line| + 1 { assert Told(lines)[k] == rest[k - |line| - 1] && Told(lines)[k - 1] == rest[k - |line| - 2]; }
      }
    }
  }

  lemma {:induction false} ToldJoin(a: seq<string>, b: seq<string>)
    ensures Told(a + b) == Told(a) + Told(b)
  {
    if a == [] {
      assert a + b == b;
    } else {
      ToldJoin(a[1..], b);
      assert (a + b)[1..] == a[1..] + b;
    }
  }

  lemma {:induction false} DigitsAreDigits(n: nat)
    ensures forall c :: c in Digits(n) ==> '0' <= c <= '9'
  {
    if n >= 10 { DigitsAreDigits(n / 10); }
  }

  lemma {:induction false} DecimalIsPlain(n: int)
    ensures forall c :: c in Decimal(n) ==> '0' <= c <= '9' || c == '-'
  {
    DigitsAreDigits(if n < 0 then -n else n);
  }

  lemma {:induction false} EscapeOneLine(s: string)
    ensures OneLine(Escape(s))
  {
    if s != [] { EscapeOneLine(s[1..]); }
  }

  lemma {:induction false} PrintOneLine(j: Json)
    ensures OneLine(Print(j))
  {
    match j case Number(n) => DecimalIsPlain(n); case Text(t) => EscapeOneLine(t);
  }

  lemma {:induction false} ListedOneLine(entries: seq<Entry>)
    requires forall k :: 0 <= k < |entries| ==> OneLine(entries[k].0)
    ensures OneLine(Listed(entries))
  {
    if entries != [] {
      PrintOneLine(entries[0].1);
      ListedOneLine(entries[1..]);
    }
  }

  lemma {:induction false} DumpsOneLine(s: Streak)
    ensures OneLine(Dumps(s))
  {
    assert forall k :: 0 <= k < |Entries(s)| ==> OneLine(Entries(s)[k].0);
    ListedOneLine(Entries(s));
    EscapeOneLine(s.repository);
  }

  lemma {:induction false} AboveWorded(s: Streak)
    requires FieldsOneLine(s)
    ensures forall k :: 0 <= k < |Above(s)| ==> Worded(Above(s)[k])
  {
    DecimalIsPlain(s.failures);
    assert OneLine("Managed rollout has failed **") && OneLine("** consecutive attempt(s) against `");
  }

  lemma {:induction false} RowsWorded(s: Streak)
    requires FieldsOneLine(s)
    ensures forall k :: 0 <= k < |Rows(s)| ==> Worded(Rows(s)[k])
  {
  }

  predicate Plain(s: string) {
    forall k :: 0 <= k < |s| ==> s[k] != '\n' && s[k] != '"'
  }

  lemma {:induction false} UpkeepPlain()
    ensures Plain(Upkeep())
  {
    assert Plain("This issue is maintained automatically ");
    assert Plain("by `scripts/rollout_failure_streak.py`. ");
  }

  lemma {:induction false} OutlookPlain()
    ensures Plain(Outlook()) && Outlook() != [] && Outlook()[|Outlook()| - 1] == '.'
  {
    assert Plain("It closes itself the next time this ");
    assert Plain("project's managed ");
    assert Plain("rollout preparation succeeds.");
  }

  lemma {:induction false} BelowWorded()
    ensures forall k :: 0 <= k < |Below()| ==> Worded(Below()[k])
  {
    UpkeepPlain();
    OutlookPlain();
  }

  /** The lines for people before the block. */
  function Prose(s: Streak): seq<string> {
    Above(s) + Rows(s) + Below()
  }

  function HeaderOf(name: string): string {
    "<!-- " + name + ['\n']
  }

  function Header(): string {
    HeaderOf(Word())
  }

  lemma {:induction false} ProseWorded(s: Streak)
    requires FieldsOneLine(s)
    ensures NoLineEnds(Told(Prose(s)))
  {
    AboveWorded(s);
    RowsWorded(s);
    BelowWorded();
    ToldLines(Prose(s));
  }

  lemma {:induction false} RenderIs(s: Streak)
    ensures Render(s) == Told(Prose(s)) + (Header() + (Dumps(s) + (Closing() + ['\n'])))
  {
    ToldJoin(Prose(s), ["<!-- " + Word(), Dumps(s), "-->"]);
    BlockIs("<!-- " + Word(), Dumps(s));
  }

  lemma {:induction false} BlockIs(first: string, json: string)
    ensures Told([first, json, "-->"]) == first + ['\n'] + (json + (Closing() + ['\n']))
  {
    assert [first, json, "-->"][1..] == [json, "-->"];
    assert [json, "-->"][1..] == ["-->"];
    assert Told(["-->"]) == "-->" + ['\n'];
  }

  /** No blanks, breaks or brackets, and the end that no line has. */
  predicate IsName(name: string) {
    name != [] && name[|name| - 1] == 'e' && forall k :: 0 <= k < |name| ==> !IsSpace(name[k]) && name[k] != '<'
  }

  lemma {:induction false} WordIsName()
    ensures IsName(Word())
  {
  }

  lemma {:induction false} NoHeader(name: string, told: string, after: string, i: nat)
    requires IsName(name) && NoLineEnds(told) && i < |told|
    ensures HeaderEnd(name, told + (HeaderOf(name) + after), i).None?
  {
    assert (told + (HeaderOf(name) + after))[|told|] == '<';
  }

  lemma {:induction false} HeaderFound(name: string, told: string, after: string)
    requires IsName(name)
    ensures HeaderEnd(name, told + (HeaderOf(name) + after), |told|) == Some(|told| + |HeaderOf(name)|)
  {
    var text := told + (HeaderOf(name) + after);
    assert text[|told| + 4] == ' ' && text[|told| + 5] == name[0];
    SpacesAre(text, |told| + 4);
  }

  lemma {:induction false} SpacesAre(text: string, i: nat)
    requires i + 1 < |text| && IsSpace(text[i]) && !IsSpace(text[i + 1])
    ensures SpacesAt(text, i) == 1
  {
    assert SpacesAt(text, i + 1) == 0;
  }

  lemma {:induction false} ClosingFound(text: string, k: nat, json: string)
    requires Begins(text, k, json) && OneLine(json) && Begins(text, k + |json|, Closing())
    ensures ClosingFrom(text, k) == Some(k + |json|)
    decreases |json|
  {
    if json != [] {
      assert text[k + 0] == json[0] && Closing()[0] == '\n';
      assert !Begins(text, k, Closing());
      forall m | 0 <= m < |json[1..]| ensures text[k + 1 + m] == json[1..][m] { assert text[k + (m + 1)] == json[m + 1]; }
      ClosingFound(text, k + 1, json[1..]);
    }
  }

  lemma {:induction false} BlockFound(name: string, text: string, i: nat, n: nat)
    requires i <= n <= |text| && BlockAt(name, text, n).Some?
    requires forall k :: i <= k < n ==> BlockAt(name, text, k).None?
    ensures BlockFrom(name, text, i) == BlockAt(name, text, n)
    decreases n - i
  {
    if i < n { BlockFound(name, text, i + 1, n); }
  }

  lemma {:induction false} PartsStand(a: string, b: string, json: string, c: string)
    ensures var text := a + (b + (json + (c + ['\n'])));
            Begins(text, |a| + |b|, json) && Begins(text, |a| + |b| + |json|, c) && text[|a| + |b|..|a| + |b| + |json|] == json
  {
  }

  lemma {:induction false} BlockIn(name: string, text: string, m: nat, n: nat, json: string)
    requires m <= |text| && n + |json| <= |text| && HeaderEnd(name, text, m) == Some(n)
    requires forall k :: 0 <= k < m ==> HeaderEnd(name, text, k).None?
    requires OneLine(json) && Begins(text, n, json) && Begins(text, n + |json|, Closing()) && text[n..n + |json|] == json
    ensures BlockFrom(name, text, 0) == Some(json)
  {
    ClosingFound(text, n, json);
    assert BlockAt(name, text, m) == Some(json);
    BlockFound(name, text, 0, m);
  }

  lemma {:induction false} NoHeaderBefore(name: string, told: string, after: string)
    requires IsName(name) && NoLineEnds(told)
    ensures forall k :: 0 <= k < |told| ==> HeaderEnd(name, told + (HeaderOf(name) + after), k).None?
  {
    forall k | 0 <= k < |told| ensures HeaderEnd(name, told + (HeaderOf(name) + after), k).None? {
      NoHeader(name, told, after, k);
    }
  }

  lemma {:induction false} BlockParsed(told: string, json: string)
    requires NoLineEnds(told) && OneLine(json)
    ensures BlockFrom(Word(), told + (Header() + (json + (Closing() + ['\n']))), 0) == Some(json)
  {
    var after := json + (Closing() + ['\n']);
    WordIsName();
    NoHeaderBefore(Word(), told, after);
    HeaderFound(Word(), told, after);
    PartsStand(told, Header(), json, Closing());
    BlockIn(Word(), told + (Header() + after), |told|, |told| + |Header()|, json);
  }

  /** A rendered body parses back to the streak, whatever single-line text its fields hold. */
  lemma {:induction false} RecordRoundTrip(loads: Loads, s: Streak)
    requires ReadsBack(loads) && FieldsOneLine(s)
    ensures Parse(loads, Render(s)) == Some(s)
  {
    ProseWorded(s);
    DumpsOneLine(s);
    RenderIs(s);
    BlockParsed(Told(Prose(s)), Dumps(s));
  }
}
