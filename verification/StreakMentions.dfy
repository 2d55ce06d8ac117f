/** Which projects an issue body mentions: the one in its record, and those whose marker a field spells out. */
module StreakMentions {
  import opened Results
  import opened StreakRecord
  import opened StreakJson

  /** The JSON key and value that name a project, as `json.dumps` writes them and without the blank. */
  function Marker(project: string): string {
    Key("repository") + (['"'] + (project + ['"']))
  }

  function TightMarker(project: string): string {
    "\"repository\":\"" + (project + ['"'])
  }

  predicate Occurs(text: string, w: string) {
    exists i :: 0 <= i <= |text| && Begins(text, i, w)
  }

  predicate Mentions(body: string, project: string) {
    Occurs(body, Marker(project)) || Occurs(body, TightMarker(project))
  }

  /** No quotes, backslashes or control characters, as in every repository name. */
  predicate IsProject(name: string) {
    forall k :: 0 <= k < |name| ==> name[k] >= ' ' && name[k] != '"' && name[k] != '\\'
  }

  /** A text that begins and ends with a quote and stays on one line. */
  predicate InQuotes(w: string) {
    |w| >= 2 && w[0] == '"' && w[|w| - 1] == '"' && OneLine(w)
  }

  predicate NoQuotes(s: string) {
    '"' !in s
  }

  // ---- occurrences

  lemma {:induction false} BeginsIn(a: string, b: string, w: string, i: nat)
    ensures Begins(b, i, w) ==> Begins(a + b, |a| + i, w)
    ensures i + |w| <= |a| ==> Begins(a + b, i, w) == Begins(a, i, w)
    ensures i >= |a| ==> Begins(a + b, i, w) == Begins(b, i - |a|, w)
  {
  }

  lemma {:induction false} NotAcross(a: string, b: string, w: string, i: nat)
    requires '\n' !in w
    ensures Begins(a + ['\n'] + b, i, w) ==> i + |w| <= |a| || i > |a|
  {
    if i <= |a| < i + |w| {
      assert (a + ['\n'] + b)[i + (|a| - i)] == '\n';
      assert w[|a| - i] != '\n';
    }
  }

  /** Nothing occurs across a character it does not hold. */
  lemma {:induction false} AcrossLine(a: string, b: string, w: string)
    requires w != [] && '\n' !in w
    ensures Occurs(a + ['\n'] + b, w) <==> Occurs(a, w) || Occurs(b, w)
  {
    var front := a + ['\n'];
    if Occurs(front + b, w) {
      var i :| 0 <= i <= |front + b| && Begins(front + b, i, w);
      BeginsIn(front, b, w, i);
      BeginsIn(a, ['\n'] + b, w, i);
      assert a + (['\n'] + b) == front + b;
      NotAcross(a, b, w, i);
    }
    if Occurs(a, w) {
      var i :| 0 <= i <= |a| && Begins(a, i, w);
      BeginsIn(a, ['\n'] + b, w, i);
      assert a + (['\n'] + b) == front + b;
      assert Begins(front + b, i, w);
    }
    if Occurs(b, w) {
      var i :| 0 <= i <= |b| && Begins(b, i, w);
      BeginsIn(front, b, w, i);
      assert Begins(front + b, |front| + i, w);
    }
  }

  ghost predicate OccursInSome(lines: seq<string>, w: string) {
    exists k :: 0 <= k < |lines| && Occurs(lines[k], w)
  }

  lemma {:induction false} OccursTold(lines: seq<string>, w: string)
    requires w != [] && '\n' !in w
    ensures Occurs(Told(lines), w) <==> OccursInSome(lines, w)
  {
    if lines == [] {
      assert Told(lines) == [];
    } else {
      AcrossLine(lines[0], Told(lines[1..]), w);
      OccursTold(lines[1..], w);
      SomeLater(lines, w);
    }
  }

  lemma {:induction false} SomeLater(lines: seq<string>, w: string)
    requires lines != []
    ensures OccursInSome(lines, w) <==> Occurs(lines[0], w) || OccursInSome(lines[1..], w)
  {
    if OccursInSome(lines[1..], w) {
      var k :| 0 <= k < |lines[1..]| && Occurs(lines[1..][k], w);
      assert lines[k + 1] == lines[1..][k];
    }
    if OccursInSome(lines, w) && !Occurs(lines[0], w) {
      var k :| 0 <= k < |lines| && Occurs(lines[k], w);
      assert lines[1..][k - 1] == lines[k];
    }
  }

  lemma {:induction false} SomeOfBoth(a: seq<string>, b: seq<string>, w: string)
    ensures OccursInSome(a + b, w) <==> OccursInSome(a, w) || OccursInSome(b, w)
  {
    if OccursInSome(a, w) {
      var k :| 0 <= k < |a| && Occurs(a[k], w);
      assert (a + b)[k] == a[k];
    }
    if OccursInSome(b, w) {
      var k :| 0 <= k < |b| && Occurs(b[k], w);
      assert (a + b)[|a| + k] == b[k];
    }
  }

  lemma {:induction false} NeedsQuotes(s: string, w: string)
    requires InQuotes(w) && NoQuotes(s)
    ensures !Occurs(s, w)
  {
    forall i | 0 <= i <= |s| ensures !Begins(s, i, w) {
      if i + |w| <= |s| { assert s[i + 0] != w[0]; }
    }
  }

  /** Between texts without quotes, what is in quotes occurs in the middle. */
  lemma {:induction false} OccursInside(a: string, x: string, b: string, w: string)
    requires InQuotes(w) && NoQuotes(a) && NoQuotes(b)
    ensures Occurs(a + x + b, w) <==> Occurs(x, w)
  {
    var t := a + x + b;
    if Occurs(t, w) {
      var i :| 0 <= i <= |t| && Begins(t, i, w);
      assert t[i + 0] == '"' && t[i + (|w| - 1)] == '"';
      assert |a| <= i && i + |w| <= |a| + |x|;
      assert Begins(x, i - |a|, w);
    }
    if Occurs(x, w) {
      var i :| 0 <= i <= |x| && Begins(x, i, w);
      assert Begins(t, |a| + i, w);
    }
  }

  // ---- the lines for people

  ghost predicate FieldSpells(s: Streak, w: string) {
    Occurs(s.firstRelease, w) || Occurs(s.lastRelease, w) || Occurs(s.category, w) || Occurs(s.reason, w)
  }

  lemma {:induction false} NoneSpells(lines: seq<string>, w: string)
    requires InQuotes(w) && forall k :: 0 <= k < |lines| ==> NoQuotes(lines[k])
    ensures !OccursInSome(lines, w)
  {
    forall k | 0 <= k < |lines| ensures !Occurs(lines[k], w) { NeedsQuotes(lines[k], w); }
  }

  lemma {:induction false} AboveNoQuotes(s: Streak)
    requires IsProject(s.repository)
    ensures forall k :: 0 <= k < |Above(s)| ==> NoQuotes(Above(s)[k])
  {
    DecimalIsPlain(s.failures);
    assert NoQuotes("Managed rollout has failed **") && NoQuotes("** consecutive attempt(s) against `");
    assert NoQuotes(Decimal(s.failures)) && NoQuotes(s.repository);
  }

  lemma {:induction false} BelowNoQuotes()
    ensures forall k :: 0 <= k < |Below()| ==> NoQuotes(Below()[k])
  {
    UpkeepPlain();
    OutlookPlain();
  }

  lemma {:induction false} RowsSpell(s: Streak, w: string)
    requires InQuotes(w)
    ensures OccursInSome(Rows(s), w) <==> FieldSpells(s, w)
  {
    OccursInside("| First failed release | ", s.firstRelease, " |", w);
    OccursInside("| Last failed release | ", s.lastRelease, " |", w);
    OccursInside("| Last category | ", s.category, " |", w);
    OccursInside("| Last reason | ", s.reason, " |", w);
    var r := Rows(s);
    assert Occurs(r[0], w) == Occurs(s.firstRelease, w) && Occurs(r[1], w) == Occurs(s.lastRelease, w);
    assert Occurs(r[2], w) == Occurs(s.category, w) && Occurs(r[3], w) == Occurs(s.reason, w);
  }

  lemma {:induction false} BlockSpells(s: Streak, w: string)
    requires InQuotes(w)
    ensures OccursInSome(["<!-- " + Word(), Dumps(s), "-->"], w) <==> Occurs(Dumps(s), w)
  {
    var block := ["<!-- " + Word(), Dumps(s), "-->"];
    NeedsQuotes(block[0], w);
    NeedsQuotes(block[2], w);
    assert block[1] == Dumps(s);
  }

  lemma {:induction false} BodySpells(s: Streak, w: string)
    requires InQuotes(w) && IsProject(s.repository)
    ensures Occurs(Render(s), w) <==> FieldSpells(s, w) || Occurs(Dumps(s), w)
  {
    var block := ["<!-- " + Word(), Dumps(s), "-->"];
    OccursTold(Above(s) + Rows(s) + Below() + block, w);
    SomeOfBoth(Above(s) + Rows(s) + Below(), block, w);
    SomeOfBoth(Above(s) + Rows(s), Below(), w);
    SomeOfBoth(Above(s), Rows(s), w);
    AboveNoQuotes(s);
    NoneSpells(Above(s), w);
    RowsSpell(s, w);
    BelowNoQuotes();
    NoneSpells(Below(), w);
    BlockSpells(s, w);
  }

  // ---- the JSON

  /** What both markers hold: the end of the key, its quote and colon. */
  function KeyEnd(): string { "tory\":" }

  ghost predicate NoKeyEnd(text: string) {
    forall i :: 0 <= i <= |text| ==> !Begins(text, i, KeyEnd())
  }

  /** A text after which no key end can have begun. */
  predicate Parts(text: string) {
    text != [] && (text[|text| - 1] == ' ' || text[|text| - 1] == '{')
  }

  lemma {:induction false} KeyEndNotAcross(a: string, b: string, i: nat)
    requires Parts(a)
    ensures Begins(a + b, i, KeyEnd()) ==> i + 6 <= |a| || i >= |a|
  {
    if i < |a| < i + 6 && i + 6 <= |a + b| { assert (a + b)[i + (|a| - 1 - i)] != KeyEnd()[|a| - 1 - i]; }
  }

  lemma {:induction false} KeyEndInOne(a: string, b: string, i: nat)
    requires Parts(a) && Begins(a + b, i, KeyEnd())
    ensures Begins(a, i, KeyEnd()) || (i >= |a| && Begins(b, i - |a|, KeyEnd()))
  {
    BeginsIn(a, b, KeyEnd(), i);
    KeyEndNotAcross(a, b, i);
  }

  lemma {:induction false} NoKeyEndInBoth(a: string, b: string)
    requires Parts(a) && NoKeyEnd(a) && NoKeyEnd(b)
    ensures NoKeyEnd(a + b)
  {
    forall i | 0 <= i <= |a + b| ensures !Begins(a + b, i, KeyEnd()) {
      if Begins(a + b, i, KeyEnd()) { KeyEndInOne(a, b, i); }
    }
  }

  lemma {:induction false} NoColon(text: string)
    requires ':' !in text
    ensures NoKeyEnd(text)
  {
    forall i | 0 <= i <= |text| ensures !Begins(text, i, KeyEnd()) {
      if i + 6 <= |text| { assert text[i + 5] != KeyEnd()[5]; }
    }
  }

  /** A key of another end. */
  lemma {:induction false} OtherKey(k: string)
    requires ':' !in k && |k| >= 4 && k[|k| - 4] != 't'
    ensures NoKeyEnd(Key(k)) && Parts(Key(k))
  {
    forall i | 0 <= i <= |Key(k)| ensures !Begins(Key(k), i, KeyEnd()) {
      if i + 6 <= |Key(k)| {
        if i + 5 == |k| + 2 { assert Key(k)[i + 0] == k[|k| - 4] != KeyEnd()[0]; }
        else { assert Key(k)[i + 5] != ':' == KeyEnd()[5]; }
      }
    }
  }

  lemma {:induction false} EscapedGuards(c: char, k: nat)
    requires k < |Escaped(c)| && Escaped(c)[k] == '"'
    ensures k > 0 && Escaped(c)[k - 1] == '\\'
  {
  }

  /** Every quote in an escaped text follows a backslash. */
  lemma {:induction false} EscapeGuards(s: string, k: nat)
    requires k < |Escape(s)| && Escape(s)[k] == '"'
    ensures k > 0 && Escape(s)[k - 1] == '\\'
  {
    var head := |Escaped(s[0])|;
    if k < head { EscapedGuards(s[0], k); } else { EscapeGuards(s[1..], k - head); }
  }

  /** A quoted text holds no key end unless a colon follows it. */
  lemma {:induction false} QuotedHolds(s: string, tail: string)
    requires tail != [] && tail[0] == ',' && NoKeyEnd(tail)
    ensures NoKeyEnd(Quoted(s) + tail)
  {
    var t, e := Quoted(s) + tail, Escape(s);
    forall i | 0 <= i <= |t| ensures !Begins(t, i, KeyEnd()) {
      BeginsIn(Quoted(s), tail, KeyEnd(), i);
      if i < |Quoted(s)| && i + 6 <= |t| { QuotedHoldsAt(s, tail, i); }
    }
  }

  lemma {:induction false} QuotedHoldsAt(s: string, tail: string, i: nat)
    requires tail != [] && tail[0] == ',' && i < |Quoted(s)| && i + 6 <= |Quoted(s) + tail|
    ensures !Begins(Quoted(s) + tail, i, KeyEnd())
  {
    var t, e := Quoted(s) + tail, Escape(s);
    var q := i + 4;
    assert t[|e| + 1] == '"' && t[|e| + 2] == ',';
    assert forall k :: 1 <= k <= |e| ==> t[k] == e[k - 1];
    if q > |e| + 1 {
      assert i <= |e| + 1 < q && t[i + (|e| + 1 - i)] != KeyEnd()[|e| + 1 - i];
    } else if q == |e| + 1 {
      assert t[i + 5] != KeyEnd()[5];
    } else if e[q - 1] == '"' {
      EscapeGuards(s, q - 1);
      assert t[i + 3] != KeyEnd()[3];
    } else {
      assert t[i + 4] != KeyEnd()[4];
    }
  }

  lemma {:induction false} PrintHolds(j: Json, rest: string)
    requires NoKeyEnd(rest)
    ensures NoKeyEnd(Print(j) + (", " + rest))
  {
    NoColon(", ");
    NoKeyEndInBoth(", ", rest);
    match j
    case Text(t) => QuotedHolds(t, ", " + rest);
    case Number(n) =>
      DecimalIsPlain(n);
      NoColon(Decimal(n) + ", ");
      NoKeyEndInBoth(Decimal(n) + ", ", rest);
      Assoc(Decimal(n), ", ", rest);
  }

  ghost predicate OtherKeys(entries: seq<Entry>) {
    forall k :: 0 <= k < |entries| ==> var key := entries[k].0; ':' !in key && |key| >= 4 && key[|key| - 4] != 't'
  }

  lemma {:induction false} ListedHolds(entries: seq<Entry>)
    requires OtherKeys(entries)
    ensures NoKeyEnd(Listed(entries)) && (entries != [] ==> Parts(Listed(entries)))
  {
    if entries == [] {
      NoColon([]);
    } else {
      var rest := Listed(entries[1..]);
      ListedHolds(entries[1..]);
      OtherKey(entries[0].0);
      PrintHolds(entries[0].1, rest);
      NoKeyEndInBoth(Key(entries[0].0), Print(entries[0].1) + (", " + rest));
    }
  }

  lemma {:induction false} HeadHolds(s: Streak)
    ensures var head := ['{'] + Listed(Entries(s)); NoKeyEnd(head) && Parts(head)
  {
    NoColon(['{']);
    ListedHolds(Entries(s));
    NoKeyEndInBoth(['{'], Listed(Entries(s)));
  }

  lemma {:induction false} EndingHolds(s: Streak)
    ensures NoKeyEnd(Ending(s))
  {
    NoColon("1}");
    OtherKey("schema_version");
    NoKeyEndInBoth(Key("schema_version"), "1}");
    PrintHolds(Text(s.repository), Key("schema_version") + "1}");
  }

  /** The key end stands in the JSON once: at the repository. */
  lemma {:induction false} KeyEndIn(s: Streak, i: nat)
    requires Begins(Dumps(s), i, KeyEnd())
    ensures i == |['{'] + Listed(Entries(s))| + 7
  {
    var head, own := ['{'] + Listed(Entries(s)), Key("repository");
    HeadHolds(s);
    EndingHolds(s);
    KeyEndInOne(head, own + Ending(s), i);
    KeyEndInOne(own, Ending(s), i - |head|);
    OwnKeyEnd(i - |head|);
  }

  lemma {:induction false} OwnKeyEnd(i: nat)
    requires Begins(Key("repository"), i, KeyEnd())
    ensures i == 7
  {
    assert Key("repository")[i + 5] == KeyEnd()[5] == ':';
    assert forall k :: 0 <= k < 14 && k != 12 ==> Key("repository")[k] != ':';
  }

  lemma {:induction false} MarkersQuote(r: string)
    requires IsProject(r)
    ensures InQuotes(Marker(r)) && InQuotes(TightMarker(r))
  {
    var a, b := Marker(r), TightMarker(r);
    assert OneLine(Key("repository")) && OneLine("\"repository\":\"") && OneLine(r);
    assert a[|a| - 1] == '"' && b[|b| - 1] == '"';
  }

  /** Both markers hold the key end, and go on differently. */
  lemma {:induction false} MarkersHold(text: string, i: nat, r: string)
    ensures Begins(text, i, Marker(r)) ==> Begins(text, i + 7, KeyEnd()) && text[i + 13] == ' '
                                           && Begins(text, i + 14, ['"'] + (r + ['"']))
    ensures Begins(text, i, TightMarker(r)) ==> Begins(text, i + 7, KeyEnd()) && text[i + 13] == '"'
  {
    var a, b := Marker(r), TightMarker(r);
    assert forall k :: 0 <= k < 6 ==> a[7 + k] == KeyEnd()[k];
    assert forall k :: 0 <= k < 6 ==> b[7 + k] == KeyEnd()[k];
    assert a[13] == ' ' && b[13] == '"';
    assert forall k :: 0 <= k < |r| + 2 ==> a[14 + k] == (['"'] + (r + ['"']))[k];
  }

  lemma {:induction false} EscapePlain(r: string)
    requires IsProject(r)
    ensures Escape(r) == r
  {
    if r != [] { EscapePlain(r[1..]); }
  }

  lemma {:induction false} SameInQuotes(own: string, r: string, tail: string)
    requires '"' !in own && '"' !in r && Begins(['"'] + (own + ['"']) + tail, 0, ['"'] + (r + ['"']))
    ensures own == r
  {
    var t, w := ['"'] + (own + ['"']) + tail, ['"'] + (r + ['"']);
    assert t == w + t[|w|..];
    assert t == ['"'] + (own + (['"'] + tail)) && w + t[|w|..] == ['"'] + (r + (['"'] + t[|w|..]));
    Dropped(['"'], own + (['"'] + tail), r + (['"'] + t[|w|..]));
    MarkEnds(own, r, '"', tail, t[|w|..]);
  }

  function Head(s: Streak): string {
    ['{'] + Listed(Entries(s))
  }

  function Tail(): string {
    ", " + (Key("schema_version") + "1}")
  }

  lemma {:induction false} DumpsIs(s: Streak)
    requires IsProject(s.repository)
    ensures Dumps(s) == Head(s) + (Marker(s.repository) + Tail())
    ensures Dumps(s) == Head(s) + (Key("repository") + (['"'] + (s.repository + ['"']) + Tail()))
  {
    EscapePlain(s.repository);
    Assoc(Key("repository"), ['"'] + (s.repository + ['"']), Tail());
  }

  lemma {:induction false} DumpsMarked(s: Streak, r: string, i: nat)
    requires IsProject(s.repository) && IsProject(r) && Begins(Dumps(s), i, Marker(r))
    ensures r == s.repository
  {
    var h, k, q := Head(s), Key("repository"), ['"'] + (s.repository + ['"']) + Tail();
    MarkersHold(Dumps(s), i, r);
    KeyEndIn(s, i + 7);
    DumpsIs(s);
    BeginsIn(h, k + q, ['"'] + (r + ['"']), i + 14);
    BeginsIn(k, q, ['"'] + (r + ['"']), 14);
    SameInQuotes(s.repository, r, Tail());
  }

  lemma {:induction false} NoTight(s: Streak, r: string, i: nat)
    requires IsProject(s.repository)
    ensures !Begins(Dumps(s), i, TightMarker(r))
  {
    MarkersHold(Dumps(s), i, r);
    if Begins(Dumps(s), i + 7, KeyEnd()) {
      KeyEndIn(s, i + 7);
      DumpsIs(s);
      assert Dumps(s)[|Head(s)| + 13] == Key("repository")[13];
    }
  }

  /** The JSON mentions its own project and no other. */
  lemma {:induction false} DumpsMention(s: Streak, r: string)
    requires IsProject(s.repository) && IsProject(r)
    ensures Mentions(Dumps(s), r) <==> r == s.repository
  {
    if Occurs(Dumps(s), Marker(r)) {
      var i :| 0 <= i <= |Dumps(s)| && Begins(Dumps(s), i, Marker(r));
      DumpsMarked(s, r, i);
    }
    forall i | 0 <= i <= |Dumps(s)| ensures !Begins(Dumps(s), i, TightMarker(r)) { NoTight(s, r, i); }
    if r == s.repository {
      DumpsIs(s);
      BeginsIn(Head(s), Marker(r) + Tail(), Marker(r), |Head(s)|);
      assert Begins(Marker(r) + Tail(), 0, Marker(r));
      assert Begins(Dumps(s), |Head(s)|, Marker(r));
    }
  }

  /** A field spells out the marker of this project. */
  predicate Spells(s: Streak, r: string) {
    Mentions(s.firstRelease, r) || Mentions(s.lastRelease, r) || Mentions(s.category, r) || Mentions(s.reason, r)
  }

  /** A rendered body mentions its own project, those whose marker one of its fields spells out, and no other. */
  lemma {:induction false} MentionsIff(s: Streak, r: string)
    requires IsProject(s.repository) && IsProject(r)
    ensures Mentions(Render(s), r) <==> r == s.repository || Spells(s, r)
  {
    MarkersQuote(r);
    BodySpells(s, Marker(r));
    BodySpells(s, TightMarker(r));
    DumpsMention(s, r);
  }
}
