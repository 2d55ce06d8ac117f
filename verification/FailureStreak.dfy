/** The tracker of failing rollouts: one open issue for each failing project, over every run of failures and successes
    of many projects. */
module FailureStreak {
  import opened Results
  import opened StreakRecord
  import opened StreakMentions

  /** An open tracking issue; `title` names the project of its title. */
  datatype Issue = Issue(title: string, body: string, alerted: bool)

  datatype Tracking = Tracking(loads: Loads, threshold: int)

  datatype Failure = Failure(repository: string, version: string, category: string, reason: string, updated: string)

  predicate FailureOneLine(x: Failure) {
    OneLine(x.repository) && OneLine(x.version) && OneLine(x.category) && OneLine(x.reason)
  }

  predicate EventOneLine(e: Event) {
    e.Failed? ==> FailureOneLine(e.failure)
  }

  datatype Event = Failed(failure: Failure) | Succeeded(repository: string)

  function Project(e: Event): string {
    match e case Failed(x) => x.repository case Succeeded(r) => r
  }

  /** The first of the hundred newest open issues that is titled after the project or mentions it. */
  function FindFrom(issues: seq<Issue>, repository: string, i: nat): (r: Option<nat>)
    requires i <= |issues|
    ensures r.Some? ==> i <= r.value < |issues|
    decreases |issues| - i
  {
    if i == |issues| || i == 100 then None
    else if issues[i].title == repository || Mentions(issues[i].body, repository) then Some(i)
    else FindFrom(issues, repository, i + 1)
  }

  /** The streak after a failure; a body that cannot be read counts as a full streak, never as none. */
  function NextStreak(t: Tracking, prior: Option<string>, x: Failure): (r: Streak)
    ensures prior.Some? && Parse(t.loads, prior.value).None? ==> r.failures >= t.threshold && r.failures >= 1
  {
    var read := if prior.Some? then Parse(t.loads, prior.value) else None;
    if read.Some? && read.value.repository == x.repository then
      Streak(x.repository, read.value.failures + 1, if read.value.firstRelease != [] then read.value.firstRelease else x.version,
             x.version, x.category, x.reason, x.updated)
    else if prior.Some? && read.None? then
      Streak(x.repository, if t.threshold > 1 then t.threshold else 1, x.version, x.version, x.category, x.reason, x.updated)
    else Streak(x.repository, 1, x.version, x.version, x.category, x.reason, x.updated)
  }

  function Edited(t: Tracking, issue: Issue, x: Failure): Issue {
    var next := NextStreak(t, Some(issue.body), x);
    Issue(issue.title, Render(next), issue.alerted || next.failures >= t.threshold)
  }

  function Opened(t: Tracking, x: Failure): Issue {
    var next := NextStreak(t, None, x);
    Issue(x.repository, Render(next), next.failures >= t.threshold)
  }

  /** The issues after an event. */
  function Step(t: Tracking, issues: seq<Issue>, e: Event): seq<Issue> {
    match FindFrom(issues, Project(e), 0)
    case Some(k) => if e.Failed? then issues[k := Edited(t, issues[k], e.failure)] else issues[..k] + issues[k + 1..]
    case None => if e.Failed? then [Opened(t, e.failure)] + issues else issues
  }

  /** Whether a failure raises the alert. */
  function Alerts(t: Tracking, issues: seq<Issue>, x: Failure): bool {
    var found := FindFrom(issues, x.repository, 0);
    NextStreak(t, if found.Some? then Some(issues[found.value].body) else None, x).failures >= t.threshold
  }

  function Run(t: Tracking, events: seq<Event>): seq<Issue> {
    if events == [] then [] else Step(t, Run(t, events[..|events| - 1]), events[|events| - 1])
  }

  /** Failures of the project since its last success. */
  function Since(events: seq<Event>, repository: string): nat {
    if events == [] then 0
    else
      var last := events[|events| - 1];
      if Project(last) != repository then Since(events[..|events| - 1], repository)
      else if last.Succeeded? then 0 else Since(events[..|events| - 1], repository) + 1
  }

  // ---- the run

  /** The lookup meets the issue titled after the project, or there is none. */
  predicate FindsOwn(issues: seq<Issue>, r: string) {
    match FindFrom(issues, r, 0)
    case Some(k) => issues[k].title == r
    case None => forall i :: 0 <= i < |issues| ==> issues[i].title != r
  }

  /** So it does at every event of the run. */
  predicate AlwaysFindsOwn(t: Tracking, events: seq<Event>) {
    forall k :: 0 <= k < |events| ==> FindsOwn(Run(t, events[..k]), Project(events[k]))
  }

  function Titles(issues: seq<Issue>): set<string> {
    set x | x in issues :: x.title
  }

  ghost predicate OneEach(issues: seq<Issue>) {
    forall i, j :: 0 <= i < j < |issues| ==> issues[i].title != issues[j].title
  }

  /** Every open issue holds its project's streak, and every project in a streak has an issue. */
  ghost predicate Tells(t: Tracking, issues: seq<Issue>, events: seq<Event>) {
    && OneEach(issues)
    && (forall i :: 0 <= i < |issues| ==> Holds(t, issues[i], Since(events, issues[i].title)))
    && forall r :: Since(events, r) > 0 ==> r in Titles(issues)
  }

  predicate Holds(t: Tracking, x: Issue, n: nat) {
    var s := Parse(t.loads, x.body);
    n > 0 && s.Some? && s.value.repository == x.title && s.value.failures == n && FieldsOneLine(s.value)
  }

  lemma {:induction false} TitlesCount(issues: seq<Issue>)
    requires OneEach(issues)
    ensures |Titles(issues)| == |issues|
  {
    if issues != [] {
      var front, last := issues[..|issues| - 1], issues[|issues| - 1];
      TitlesCount(front);
      assert issues == front + [last];
      assert Titles(issues) == Titles(front) + {last.title};
    }
  }

  lemma {:induction false} FewIssues(issues: seq<Issue>, projects: set<string>)
    requires OneEach(issues) && |projects| <= 100 && AllGenuine(issues, projects)
    ensures |issues| <= 100
  {
    forall r | r in Titles(issues) ensures r in projects {
      var x :| x in issues && x.title == r;
    }
    TitlesCount(issues);
    Fewer(Titles(issues), projects);
  }

  lemma {:induction false} Fewer(a: set<string>, b: set<string>)
    requires a <= b
    ensures |a| <= |b|
  {
    if a != {} {
      var x :| x in a;
      Fewer(a - {x}, b - {x});
    }
  }

  /** What a failure writes over the record of its project, over that of another, and where there is none. */
  lemma {:induction false} EditedHolds(t: Tracking, issue: Issue, x: Failure, n: nat)
    requires ReadsBack(t.loads) && FailureOneLine(x) && Holds(t, issue, n)
    ensures var next := NextStreak(t, Some(issue.body), x);
            if issue.title == x.repository then next.failures == n + 1 && Holds(t, Edited(t, issue, x), n + 1)
            else forall m :: !Holds(t, Edited(t, issue, x), m)
  {
    RecordRoundTrip(t.loads, NextStreak(t, Some(issue.body), x));
  }

  lemma {:induction false} OpenedHolds(t: Tracking, x: Failure)
    requires ReadsBack(t.loads) && FailureOneLine(x)
    ensures Holds(t, Opened(t, x), 1) && NextStreak(t, None, x).failures == 1
  {
    RecordRoundTrip(t.loads, NextStreak(t, None, x));
  }

  lemma {:induction false} SinceOther(events: seq<Event>, e: Event, r: string)
    ensures Since(events + [e], r) == if Project(e) != r then Since(events, r) else if e.Succeeded? then 0 else Since(events, r) + 1
  {
    assert (events + [e])[..|events|] == events;
  }

  /** Only what happened to this project changes. */
  ghost predicate OnlyCounts(events: seq<Event>, later: seq<Event>, r: string, n: nat) {
    Since(later, r) == n && forall x :: x != r ==> Since(later, x) == Since(events, x)
  }

  /** How the counts change with an event. */
  ghost predicate Counted(events: seq<Event>, e: Event) {
    OnlyCounts(events, events + [e], Project(e), if e.Succeeded? then 0 else Since(events, Project(e)) + 1)
  }

  lemma {:induction false} EventCounted(events: seq<Event>, e: Event)
    ensures Counted(events, e)
  {
    forall x ensures Since(events + [e], x)
                  == if Project(e) != x then Since(events, x) else if e.Succeeded? then 0 else Since(events, x) + 1 {
      SinceOther(events, e, x);
    }
  }

  /** An event keeps the record exact if and only if its lookup meets the project's own issue; then a failure alerts
      exactly from the threshold on. */
  lemma {:induction false} StepTellsIff(t: Tracking, issues: seq<Issue>, events: seq<Event>, e: Event)
    requires ReadsBack(t.loads) && EventOneLine(e) && Tells(t, issues, events)
    ensures Tells(t, Step(t, issues, e), events + [e]) <==> FindsOwn(issues, Project(e))
    ensures FindsOwn(issues, Project(e)) && e.Failed? ==>
              (Alerts(t, issues, e.failure) <==> Since(events + [e], Project(e)) >= t.threshold)
  {
    EventCounted(events, e);
    var found := FindFrom(issues, Project(e), 0);
    if e.Failed? {
      if found.Some? { FoundFails(t, issues, events, e.failure, found.value); } else { NewFails(t, issues, events, e.failure); }
    } else {
      if found.Some? { FoundSucceeds(t, issues, events, e, found.value); } else { NewSucceeds(t, issues, events, e); }
    }
  }

  lemma {:induction false} FoundFails(t: Tracking, issues: seq<Issue>, events: seq<Event>, x: Failure, k: nat)
    requires ReadsBack(t.loads) && FailureOneLine(x) && Tells(t, issues, events) && k < |issues| && Counted(events, Failed(x))
    ensures Tells(t, issues[k := Edited(t, issues[k], x)], events + [Failed(x)]) <==> issues[k].title == x.repository
    ensures issues[k].title == x.repository ==>
              NextStreak(t, Some(issues[k].body), x).failures == Since(events + [Failed(x)], x.repository)
  {
    var y, n := Edited(t, issues[k], x), Since(events, issues[k].title);
    assert Holds(t, issues[k], n);
    EditedHolds(t, issues[k], x, n);
    if issues[k].title == x.repository { Updates(t, issues, events, events + [Failed(x)], k, y); }
    else { assert issues[k := y][k] == y; }
  }

  lemma {:induction false} NewFails(t: Tracking, issues: seq<Issue>, events: seq<Event>, x: Failure)
    requires ReadsBack(t.loads) && FailureOneLine(x) && Tells(t, issues, events) && Counted(events, Failed(x))
    ensures Tells(t, [Opened(t, x)] + issues, events + [Failed(x)]) <==> forall i :: 0 <= i < |issues| ==> issues[i].title != x.repository
    ensures (forall i :: 0 <= i < |issues| ==> issues[i].title != x.repository) ==>
              NextStreak(t, None, x).failures == Since(events + [Failed(x)], x.repository)
  {
    OpenedHolds(t, x);
    if i :| 0 <= i < |issues| && issues[i].title == x.repository {
      TwoOfOne(t, issues, i, Opened(t, x));
    } else {
      assert x.repository !in Titles(issues);
      Opens(t, issues, events, events + [Failed(x)], Opened(t, x));
    }
  }

  lemma {:induction false} TwoOfOne(t: Tracking, issues: seq<Issue>, i: nat, x: Issue)
    requires i < |issues| && issues[i].title == x.title
    ensures !OneEach([x] + issues)
  {
    assert ([x] + issues)[0].title == ([x] + issues)[i + 1].title;
  }

  lemma {:induction false} FoundSucceeds(t: Tracking, issues: seq<Issue>, events: seq<Event>, e: Event, k: nat)
    requires e.Succeeded? && Tells(t, issues, events) && k < |issues| && Counted(events, e)
    ensures Tells(t, issues[..k] + issues[k + 1..], events + [e]) <==> issues[k].title == Project(e)
  {
    if issues[k].title == Project(e) {
      Closes(t, issues, events, events + [e], k);
    } else {
      Without(issues, k);
      assert Holds(t, issues[k], Since(events, issues[k].title));
      assert Since(events + [e], issues[k].title) > 0;
    }
  }

  lemma {:induction false} NewSucceeds(t: Tracking, issues: seq<Issue>, events: seq<Event>, e: Event)
    requires e.Succeeded? && Tells(t, issues, events) && Counted(events, e)
    ensures Tells(t, issues, events + [e]) <==> forall i :: 0 <= i < |issues| ==> issues[i].title != Project(e)
  {
    if i :| 0 <= i < |issues| && issues[i].title == Project(e) {
      assert !Holds(t, issues[i], Since(events + [e], issues[i].title));
    } else {
      assert Project(e) !in Titles(issues);
    }
  }

  lemma {:induction false} Without(issues: seq<Issue>, k: nat)
    requires OneEach(issues) && k < |issues|
    ensures var after := issues[..k] + issues[k + 1..];
            && OneEach(after) && Titles(after) == Titles(issues) - {issues[k].title}
            && forall i :: 0 <= i < |after| ==> after[i] in issues
  {
    var after := issues[..k] + issues[k + 1..];
    assert forall i :: 0 <= i < |after| ==> after[i] == issues[if i < k then i else i + 1];
    forall r ensures r in Titles(after) <==> r in Titles(issues) && r != issues[k].title {
      if r in Titles(issues) && r != issues[k].title {
        var x :| x in issues && x.title == r;
        var i :| 0 <= i < |issues| && issues[i] == x;
        assert after[if i < k then i else i - 1] == x;
      }
    }
  }

  lemma {:induction false} Closes(t: Tracking, issues: seq<Issue>, events: seq<Event>, later: seq<Event>, k: nat)
    requires Tells(t, issues, events) && k < |issues| && OnlyCounts(events, later, issues[k].title, 0)
    ensures Tells(t, issues[..k] + issues[k + 1..], later)
  {
    var after := issues[..k] + issues[k + 1..];
    Without(issues, k);
    forall i | 0 <= i < |after| ensures Holds(t, after[i], Since(later, after[i].title)) {
      assert after[i].title in Titles(after);
      var j :| 0 <= j < |issues| && issues[j] == after[i];
    }
  }

  lemma {:induction false} Updates(t: Tracking, issues: seq<Issue>, events: seq<Event>, later: seq<Event>, k: nat, x: Issue)
    requires Tells(t, issues, events) && k < |issues| && x.title == issues[k].title
    requires OnlyCounts(events, later, x.title, Since(events, x.title) + 1) && Holds(t, x, Since(later, x.title))
    ensures Tells(t, issues[k := x], later)
  {
    var after := issues[k := x];
    assert forall i :: 0 <= i < |issues| ==> after[i].title == issues[i].title;
    forall r | Since(later, r) > 0 ensures r in Titles(after) {
      if r == x.title { assert after[k] in after; }
      else {
        var y :| y in issues && y.title == r;
        var i :| 0 <= i < |issues| && issues[i] == y;
        assert after[i] in after;
      }
    }
  }

  lemma {:induction false} Opens(t: Tracking, issues: seq<Issue>, events: seq<Event>, later: seq<Event>, x: Issue)
    requires Tells(t, issues, events) && x.title !in Titles(issues)
    requires OnlyCounts(events, later, x.title, 1) && Holds(t, x, 1)
    ensures Tells(t, [x] + issues, later)
  {
    var after := [x] + issues;
    forall i | 0 < i < |after| ensures after[i] == issues[i - 1] && after[i].title in Titles(issues) { assert issues[i - 1] in issues; }
    forall r | Since(later, r) > 0 ensures r in Titles(after) {
      if r == x.title { assert after[0] in after; }
      else {
        var y :| y in issues && y.title == r;
        assert y in after;
      }
    }
  }

  /** Every record of the run is exact. */
  ghost predicate AlwaysTells(t: Tracking, events: seq<Event>) {
    forall k :: 0 <= k <= |events| ==> RunIsTold(t, events[..k])
  }

  ghost predicate RunIsTold(t: Tracking, events: seq<Event>) {
    Tells(t, Run(t, events), events)
  }

  lemma {:induction false} FindsNext(t: Tracking, events: seq<Event>, e: Event)
    ensures AlwaysFindsOwn(t, events + [e]) <==> AlwaysFindsOwn(t, events) && FindsOwn(Run(t, events), Project(e))
  {
    var later := events + [e];
    assert later[..|events|] == events;
    forall k | 0 <= k < |events| ensures later[..k] == events[..k] && later[k] == events[k] {}
    if AlwaysFindsOwn(t, later) {
      assert FindsOwn(Run(t, later[..|events|]), Project(later[|events|]));
      forall k | 0 <= k < |events| ensures FindsOwn(Run(t, events[..k]), Project(events[k])) {
        assert FindsOwn(Run(t, later[..k]), Project(later[k]));
      }
    }
  }

  lemma {:induction false} TellsNext(t: Tracking, events: seq<Event>, e: Event)
    ensures AlwaysTells(t, events + [e]) <==> AlwaysTells(t, events) && RunIsTold(t, events + [e])
  {
    var later := events + [e];
    assert later[..|later|] == later;
    forall k | 0 <= k <= |events| ensures later[..k] == events[..k] {}
    if AlwaysTells(t, later) {
      assert RunIsTold(t, later[..|later|]);
      forall k | 0 <= k <= |events| ensures RunIsTold(t, events[..k]) { assert RunIsTold(t, later[..k]); }
    }
    if AlwaysTells(t, events) && RunIsTold(t, later) {
      forall k | 0 <= k <= |later| ensures RunIsTold(t, later[..k]) {
        if k <= |events| { assert RunIsTold(t, events[..k]); }
      }
    }
  }

  /** Over every run of failures and successes of any number of projects: each project's record holds exactly its
      failures since its last success, at every point, if and only if every lookup meets the project's own issue. */
  lemma {:induction false} RunTellsIff(t: Tracking, events: seq<Event>)
    requires ReadsBack(t.loads) && forall k :: 0 <= k < |events| ==> EventOneLine(events[k])
    ensures AlwaysTells(t, events) <==> AlwaysFindsOwn(t, events)
  {
    if events == [] {
      assert RunIsTold(t, events[..0]);
    } else {
      var before, last := events[..|events| - 1], events[|events| - 1];
      assert before + [last] == events && before[..|before|] == before;
      RunTellsIff(t, before);
      FindsNext(t, before, last);
      TellsNext(t, before, last);
      RunOn(t, before, last);
      if AlwaysTells(t, before) {
        assert RunIsTold(t, before[..|before|]);
        StepTellsIff(t, Run(t, before), before, last);
      }
    }
  }

  /** And in such a run a failure raises the alert exactly from the threshold on. */
  lemma {:induction false} AlertsFromThreshold(t: Tracking, events: seq<Event>, x: Failure)
    requires ReadsBack(t.loads) && FailureOneLine(x) && forall k :: 0 <= k < |events| ==> EventOneLine(events[k])
    requires AlwaysFindsOwn(t, events) && FindsOwn(Run(t, events), x.repository)
    ensures Alerts(t, Run(t, events), x) <==> Since(events, x.repository) + 1 >= t.threshold
  {
    RunTellsIff(t, events);
    assert events[..|events|] == events && RunIsTold(t, events[..|events|]);
    StepTellsIff(t, Run(t, events), events, Failed(x));
    SinceOther(events, Failed(x), x.repository);
  }

  // ---- which inputs are safe

  /** The failure's own text spells out no marker of another of these projects. */
  predicate FailureClean(x: Failure, projects: set<string>) {
    forall r :: r in projects && r != x.repository ==> !Mentions(x.version, r) && !Mentions(x.category, r) && !Mentions(x.reason, r)
  }

  /** Events of at most a hundred projects, as many as the lookup lists, with clean text on single lines. */
  ghost predicate Clean(events: seq<Event>, projects: set<string>) {
    && |projects| <= 100 && (forall r :: r in projects ==> IsProject(r))
    && forall k :: 0 <= k < |events| ==> EventClean(events[k], projects)
  }

  predicate EventClean(e: Event, projects: set<string>) {
    Project(e) in projects && EventOneLine(e) && (e.Failed? ==> FailureClean(e.failure, projects))
  }

  /** An issue as the tracker writes it, that spells out no other project. */
  ghost predicate Genuine(x: Issue, projects: set<string>) {
    && x.title in projects
    && exists s :: x.body == Render(s) && s.repository == x.title && FieldsOneLine(s) && SpellsNone(s, projects)
  }

  ghost predicate SpellsNone(s: Streak, projects: set<string>) {
    forall r :: r in projects && r != s.repository ==> !Spells(s, r)
  }

  ghost predicate AllGenuine(issues: seq<Issue>, projects: set<string>) {
    forall x :: x in issues ==> Genuine(x, projects)
  }

  lemma {:induction false} GenuineMentions(x: Issue, projects: set<string>, r: string)
    requires Genuine(x, projects) && r in projects && forall p :: p in projects ==> IsProject(p)
    ensures Mentions(x.body, r) <==> r == x.title
  {
    var s :| x.body == Render(s) && s.repository == x.title && FieldsOneLine(s) && SpellsNone(s, projects);
    MentionsIff(s, r);
  }

  ghost predicate OnlyTitled(issues: seq<Issue>, r: string) {
    forall i :: 0 <= i < |issues| ==> (Mentions(issues[i].body, r) <==> r == issues[i].title)
  }

  lemma {:induction false} TitledFinds(issues: seq<Issue>, r: string, i: nat)
    requires OnlyTitled(issues, r) && i <= |issues| <= 100
    ensures match FindFrom(issues, r, i)
            case Some(k) => issues[k].title == r
            case None => forall k :: i <= k < |issues| ==> issues[k].title != r
    decreases |issues| - i
  {
    if i < |issues| && issues[i].title != r { TitledFinds(issues, r, i + 1); }
  }

  lemma {:induction false} GenuineFinds(issues: seq<Issue>, projects: set<string>, r: string)
    requires AllGenuine(issues, projects) && r in projects && |issues| <= 100 && forall p :: p in projects ==> IsProject(p)
    ensures FindsOwn(issues, r)
  {
    forall i | 0 <= i < |issues| ensures Mentions(issues[i].body, r) <==> r == issues[i].title {
      GenuineMentions(issues[i], projects, r);
    }
    TitledFinds(issues, r, 0);
  }

  /** The record written for a clean failure is genuine. */
  lemma {:induction false} EditedIsGenuine(t: Tracking, issue: Issue, x: Failure, projects: set<string>)
    requires ReadsBack(t.loads) && EventClean(Failed(x), projects) && Genuine(issue, projects) && issue.title == x.repository
    ensures Genuine(Edited(t, issue, x), projects)
  {
    var s :| issue.body == Render(s) && s.repository == x.repository && FieldsOneLine(s) && SpellsNone(s, projects);
    var next := NextStreak(t, Some(issue.body), x);
    RecordRoundTrip(t.loads, s);
    assert next.firstRelease == s.firstRelease || next.firstRelease == x.version;
    forall r | r in projects && r != x.repository ensures !Spells(next, r) { assert !Spells(s, r); }
    assert FieldsOneLine(next) && SpellsNone(next, projects);
  }

  lemma {:induction false} OpenedIsGenuine(t: Tracking, x: Failure, projects: set<string>)
    requires EventClean(Failed(x), projects)
    ensures Genuine(Opened(t, x), projects)
  {
    var next := NextStreak(t, None, x);
    assert FieldsOneLine(next) && SpellsNone(next, projects);
  }

  lemma {:induction false} EditsGenuine(issues: seq<Issue>, k: nat, x: Issue, projects: set<string>)
    requires k < |issues| && AllGenuine(issues, projects) && Genuine(x, projects)
    ensures AllGenuine(issues[k := x], projects)
  {
  }

  lemma {:induction false} OpensGenuine(issues: seq<Issue>, x: Issue, projects: set<string>)
    requires AllGenuine(issues, projects) && Genuine(x, projects)
    ensures AllGenuine([x] + issues, projects)
  {
    assert forall y :: y in [x] + issues ==> y == x || y in issues;
  }

  lemma {:induction false} StepGenuine(t: Tracking, issues: seq<Issue>, e: Event, projects: set<string>)
    requires ReadsBack(t.loads) && EventClean(e, projects) && AllGenuine(issues, projects) && FindsOwn(issues, Project(e))
    ensures AllGenuine(Step(t, issues, e), projects)
  {
    if e.Failed? {
      match FindFrom(issues, Project(e), 0)
      case Some(k) =>
        EditedIsGenuine(t, issues[k], e.failure, projects);
        EditsGenuine(issues, k, Edited(t, issues[k], e.failure), projects);
      case None =>
        OpenedIsGenuine(t, e.failure, projects);
        OpensGenuine(issues, Opened(t, e.failure), projects);
    }
  }

  /** If no failure's text spells out the marker of another project, every lookup of the run meets the right issue. */
  lemma {:induction false} CleanFindsOwn(t: Tracking, events: seq<Event>, projects: set<string>)
    requires ReadsBack(t.loads) && Clean(events, projects)
    ensures AlwaysFindsOwn(t, events) && AllGenuine(Run(t, events), projects) && OneEach(Run(t, events))
  {
    if events != [] {
      var before, last := events[..|events| - 1], events[|events| - 1];
      assert before[..|before|] == before && before + [last] == events;
      CleanFindsOwn(t, before, projects);
      RunTellsIff(t, before);
      assert RunIsTold(t, before[..|before|]);
      CleanStep(t, Run(t, before), before, last, projects);
      FindsNext(t, before, last);
    }
  }

  lemma {:induction false} CleanStep(t: Tracking, issues: seq<Issue>, events: seq<Event>, e: Event, projects: set<string>)
    requires ReadsBack(t.loads) && |projects| <= 100 && (forall r :: r in projects ==> IsProject(r)) && EventClean(e, projects)
    requires AllGenuine(issues, projects) && Tells(t, issues, events)
    ensures FindsOwn(issues, Project(e)) && AllGenuine(Step(t, issues, e), projects) && OneEach(Step(t, issues, e))
  {
    FewIssues(issues, projects);
    GenuineFinds(issues, projects, Project(e));
    StepGenuine(t, issues, e, projects);
    StepTellsIff(t, issues, events, e);
  }

  /** So the counts are exact, and the alert is, over every such run. */
  lemma {:induction false} CleanRunTells(t: Tracking, events: seq<Event>, projects: set<string>)
    requires ReadsBack(t.loads) && Clean(events, projects)
    ensures AlwaysTells(t, events)
    ensures forall x :: EventClean(Failed(x), projects) ==>
              (Alerts(t, Run(t, events), x) <==> Since(events, x.repository) + 1 >= t.threshold)
  {
    CleanFindsOwn(t, events, projects);
    RunTellsIff(t, events);
    FewIssues(Run(t, events), projects);
    forall x | EventClean(Failed(x), projects)
      ensures Alerts(t, Run(t, events), x) <==> Since(events, x.repository) + 1 >= t.threshold
    {
      GenuineFinds(Run(t, events), projects, x.repository);
      AlertsFromThreshold(t, events, x);
    }
  }

  // ---- and which are not

  /** Project a fails with the marker of project b in its reason, then b fails, then a again. */
  function Thrice(a: Failure, b: Failure): seq<Event> {
    [Failed(a)] + [Failed(b)] + [Failed(a)]
  }

  ghost predicate Quotes(a: Failure, b: Failure) {
    && a.repository != b.repository && IsProject(a.repository) && IsProject(b.repository)
    && FailureOneLine(a) && FailureOneLine(b) && Mentions(a.reason, b.repository)
  }

  lemma {:induction false} RunOn(t: Tracking, events: seq<Event>, e: Event)
    ensures Run(t, events + [e]) == Step(t, Run(t, events), e)
  {
    assert (events + [e])[..|events|] == events;
  }

  lemma {:induction false} SinceThrice(a: Failure, b: Failure)
    requires a.repository != b.repository
    ensures Since(Thrice(a, b), a.repository) == 2 && Since(Thrice(a, b), b.repository) == 1
  {
    assert [] + [Failed(a)] == [Failed(a)];
    forall r ensures Since([Failed(a)], r) == if r == a.repository then 1 else 0 { SinceOther([], Failed(a), r); }
    forall r ensures Since([Failed(a)] + [Failed(b)], r) == if r == a.repository || r == b.repository then 1 else 0 {
      SinceOther([Failed(a)], Failed(b), r);
    }
    SinceOther([Failed(a)] + [Failed(b)], Failed(a), a.repository);
    SinceOther([Failed(a)] + [Failed(b)], Failed(a), b.repository);
  }

  /** The lookup of b meets the issue of a. */
  lemma {:induction false} MetByOther(t: Tracking, a: Failure, b: Failure)
    requires Quotes(a, b)
    ensures FindFrom([Opened(t, a)], b.repository, 0) == Some(0)
  {
    MentionsIff(NextStreak(t, None, a), b.repository);
  }

  lemma {:induction false} TitleMet(issue: Issue)
    ensures FindFrom([issue], issue.title, 0) == Some(0)
  {
  }

  lemma {:induction false} StepOnOne(t: Tracking, issue: Issue, x: Failure)
    requires FindFrom([issue], x.repository, 0) == Some(0)
    ensures Step(t, [issue], Failed(x)) == [Edited(t, issue, x)]
  {
  }

  /** The first issue is edited twice. */
  lemma {:induction false} ThriceRun(t: Tracking, a: Failure, b: Failure)
    requires Quotes(a, b)
    ensures Run(t, [Failed(a)]) == [Opened(t, a)] && Run(t, Thrice(a, b)) == [Edited(t, Edited(t, Opened(t, a), b), a)]
  {
    assert [] + [Failed(a)] == [Failed(a)];
    RunOn(t, [], Failed(a));
    RunOn(t, [Failed(a)], Failed(b));
    RunOn(t, [Failed(a)] + [Failed(b)], Failed(a));
    MetByOther(t, a, b);
    StepOnOne(t, Opened(t, a), b);
    TitleMet(Edited(t, Opened(t, a), b));
    StepOnOne(t, Edited(t, Opened(t, a), b), a);
  }

  /** The count of a starts anew, for b has written its own record over the issue, and b has no issue of its own. */
  lemma {:induction false} QuoteForgets(t: Tracking, a: Failure, b: Failure)
    requires ReadsBack(t.loads) && Quotes(a, b)
    ensures var issues := Run(t, Thrice(a, b));
            && Since(Thrice(a, b), a.repository) == 2 && Since(Thrice(a, b), b.repository) == 1
            && |issues| == 1 && Holds(t, issues[0], 1) && issues[0].title == a.repository
    ensures !AlwaysTells(t, Thrice(a, b))
  {
    SinceThrice(a, b);
    ThriceRun(t, a, b);
    OverwrittenTwice(t, Opened(t, a), a, b);
    var run := Thrice(a, b);
    assert run[..|run|] == run;
    assert !Holds(t, Run(t, run)[0], 2);
    assert !RunIsTold(t, run[..|run|]);
  }

  lemma {:induction false} OverwrittenTwice(t: Tracking, issue: Issue, a: Failure, b: Failure)
    requires ReadsBack(t.loads) && FailureOneLine(a) && FailureOneLine(b) && issue.title == a.repository != b.repository
    requires issue == Opened(t, a)
    ensures Holds(t, Edited(t, Edited(t, issue, b), a), 1) && Edited(t, Edited(t, issue, b), a).title == a.repository
  {
    OpenedHolds(t, a);
    EditedHolds(t, issue, b, 1);
    var next := NextStreak(t, Some(issue.body), b);
    RecordRoundTrip(t.loads, next);
    RecordRoundTrip(t.loads, NextStreak(t, Some(Edited(t, issue, b).body), a));
  }

  /** One such input. */
  lemma {:induction false} QuotingReason() returns (a: Failure, b: Failure)
    ensures a == Failure("own/a", "v1", "proof", "saw \"repository\": \"own/b\"", "t1")
    ensures b == Failure("own/b", "v1", "proof", "broken", "t2")
    ensures Quotes(a, b)
  {
    a := Failure("own/a", "v1", "proof", "saw \"repository\": \"own/b\"", "t1");
    b := Failure("own/b", "v1", "proof", "broken", "t2");
    assert a.repository[4] != b.repository[4];
    MarkerSpelled();
  }

  lemma {:induction false} MarkerSpelled()
    ensures Mentions("saw \"repository\": \"own/b\"", "own/b")
  {
    var m := Marker("own/b");
    assert m == "\"repository\": \"own/b\"";
    assert Begins("saw \"repository\": \"own/b\"", 4, m);
  }
}
