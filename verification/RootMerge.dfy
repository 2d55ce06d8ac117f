/** Merging duplicate friction roots on GitHub as a resumable program: every remote write may be the last one
    before a crash, and running the same command again must finish the job. */
module RootMerge {
  import opened Results

  /** Hidden markers in comments: "this root was merged into", and "that root was merged into this one". */
  datatype Mark = MergedInto(target: nat) | Listing(duplicate: nat, target: nat)

  /** An issue: its fingerprint markers in body order, and the marks each comment carries. */
  datatype Issue = Issue(open: bool, routerTitle: bool, markers: seq<string>, comments: seq<set<Mark>>)

  type Tracker = map<nat, Issue>

  predicate Generated(i: Issue) {
    i.routerTitle && i.markers != []
  }

  predicate Marked(i: Issue, m: Mark) {
    exists k :: 0 <= k < |i.comments| && m in i.comments[k]
  }

  // ---- remote writes

  datatype Write = AddMarkers(number: nat, markers: seq<string>) | Comment(number: nat, marks: set<Mark>) | Close(number: nat)

  function Perform(s: Tracker, w: Write): Tracker {
    if w.number !in s then s
    else
      var i := s[w.number];
      s[w.number :=
        match w
        case AddMarkers(_, markers) => i.(markers := i.markers + markers)
        case Comment(_, marks) => i.(comments := i.comments + [marks])
        case Close(_) => i.(open := false)]
  }

  function PerformAll(s: Tracker, ws: seq<Write>): Tracker {
    if ws == [] then s else PerformAll(Perform(s, ws[0]), ws[1..])
  }

  // ---- what one run sets out to do

  predicate DistinctNumbers(q: seq<nat>) {
    forall i, j :: 0 <= i < j < |q| ==> q[i] != q[j]
  }

  /** The duplicate is an open generated root, or was closed by an earlier run of this very merge. */
  predicate Mergeable(i: Issue, target: nat) {
    if i.open then Generated(i) else Marked(i, MergedInto(target))
  }

  predicate Accepts(s: Tracker, target: nat, numbers: seq<nat>) {
    && DistinctNumbers(numbers) && target !in numbers
    && target in s && s[target].open && Generated(s[target])
    && forall k :: 0 <= k < |numbers| ==> numbers[k] in s && Mergeable(s[numbers[k]], target)
  }

  function MarkersOf(s: Tracker, numbers: seq<nat>): seq<string> {
    if numbers == [] then []
    else (if numbers[0] in s then s[numbers[0]].markers else []) + MarkersOf(s, numbers[1..])
  }

  /** The first occurrences of what `body` lacks, in order. */
  function Missing(body: seq<string>, markers: seq<string>): seq<string>
    decreases |markers|
  {
    if markers == [] then []
    else if markers[0] in body then Missing(body, markers[1..])
    else [markers[0]] + Missing(body + [markers[0]], markers[1..])
  }

  function Unlisted(i: Issue, target: nat, numbers: seq<nat>): seq<nat> {
    if numbers == [] then []
    else (if Marked(i, Listing(numbers[0], target)) then [] else [numbers[0]]) + Unlisted(i, target, numbers[1..])
  }

  function Listings(target: nat, numbers: seq<nat>): set<Mark> {
    set n | n in numbers :: Listing(n, target)
  }

  function CloseOne(s: Tracker, target: nat, n: nat): seq<Write> {
    if n !in s || !s[n].open then []
    else (if Marked(s[n], MergedInto(target)) then [] else [Comment(n, {MergedInto(target)})]) + [Close(n)]
  }

  function CloseAll(s: Tracker, target: nat, numbers: seq<nat>): seq<Write> {
    if numbers == [] then [] else CloseOne(s, target, numbers[0]) + CloseAll(s, target, numbers[1..])
  }

  function OnTarget(s: Tracker, target: nat, numbers: seq<nat>): seq<Write>
    requires target in s
  {
    var missing := Missing(s[target].markers, MarkersOf(s, numbers));
    var unlisted := Unlisted(s[target], target, numbers);
    (if missing == [] then [] else [AddMarkers(target, missing)])
      + (if unlisted == [] then [] else [Comment(target, Listings(target, unlisted))])
  }

  /** All remote writes of an undisturbed run, in order: the target first, then each duplicate. */
  function Plan(s: Tracker, target: nat, numbers: seq<nat>): seq<Write>
    requires target in s
  {
    OnTarget(s, target, numbers) + CloseAll(s, target, numbers)
  }

  // ---- after any write, the plan is what remains of the plan

  lemma {:induction false} MissingIsAbsent(body: seq<string>, markers: seq<string>)
    ensures forall m :: m in Missing(body, markers) ==> m !in body && m in markers
    ensures forall m :: m in markers ==> m in body + Missing(body, markers)
    decreases |markers|
  {
    if markers != [] {
      var first, rest := markers[0], markers[1..];
      assert markers == [first] + rest;
      if first in body { MissingIsAbsent(body, rest); }
      else {
        MissingIsAbsent(body + [first], rest);
        assert body + [first] + Missing(body + [first], rest) == body + Missing(body, markers);
      }
    }
  }

  lemma {:induction false} NothingMissing(body: seq<string>, markers: seq<string>)
    ensures Missing(body, markers) == [] <==> forall m :: m in markers ==> m in body
    decreases |markers|
  {
    if markers != [] && markers[0] in body { NothingMissing(body, markers[1..]); }
  }

  lemma {:induction false} NothingUnlisted(i: Issue, target: nat, numbers: seq<nat>)
    ensures Unlisted(i, target, numbers) == [] <==> forall n :: n in numbers ==> Marked(i, Listing(n, target))
    ensures forall n :: n in Unlisted(i, target, numbers) <==> n in numbers && !Marked(i, Listing(n, target))
  {
    if numbers != [] { NothingUnlisted(i, target, numbers[1..]); }
  }

  lemma {:induction false} UnlistedSame(i: Issue, j: Issue, target: nat, numbers: seq<nat>)
    requires i.comments == j.comments
    ensures Unlisted(i, target, numbers) == Unlisted(j, target, numbers)
  {
    if numbers != [] { UnlistedSame(i, j, target, numbers[1..]); }
  }

  /** Two trackers that agree on the listed issues have the same work on them. */
  lemma {:induction false} SameWork(s: Tracker, s': Tracker, target: nat, numbers: seq<nat>)
    requires forall n :: n in numbers ==> (n in s <==> n in s') && (n in s ==> s[n] == s'[n])
    ensures MarkersOf(s, numbers) == MarkersOf(s', numbers)
    ensures CloseAll(s, target, numbers) == CloseAll(s', target, numbers)
  {
    if numbers != [] {
      assert numbers[0] in numbers;
      SameWork(s, s', target, numbers[1..]);
    }
  }

  lemma {:induction false} MarkersSame(s: Tracker, s': Tracker, numbers: seq<nat>)
    requires forall n :: n in numbers ==> n in s && n in s' && s[n].markers == s'[n].markers
    ensures MarkersOf(s, numbers) == MarkersOf(s', numbers)
  {
    if numbers != [] {
      assert numbers[0] in numbers;
      MarkersSame(s, s', numbers[1..]);
    }
  }

  lemma MarkedLonger(i: Issue, marks: set<Mark>, m: Mark)
    ensures Marked(i.(comments := i.comments + [marks]), m) <==> Marked(i, m) || m in marks
  {
    var longer := i.comments + [marks];
    assert forall k :: 0 <= k < |i.comments| ==> longer[k] == i.comments[k];
    assert longer[|i.comments|] == marks;
  }

  /** The first pending write on a duplicate, once performed, is gone from the work and nothing else changes in it. */
  lemma {:induction false} CloseProgress(s: Tracker, target: nat, numbers: seq<nat>)
    requires DistinctNumbers(numbers) && CloseAll(s, target, numbers) != []
    ensures var w := CloseAll(s, target, numbers)[0];
      w.number in numbers && !w.AddMarkers?
      && CloseAll(Perform(s, w), target, numbers) == CloseAll(s, target, numbers)[1..]
  {
    var n, rest := numbers[0], numbers[1..];
    if CloseOne(s, target, n) == [] {
      CloseProgress(s, target, rest);
      var w := CloseAll(s, target, rest)[0];
      assert w.number != n;
    } else {
      var w := CloseOne(s, target, n)[0];
      var s' := Perform(s, w);
      assert n !in rest;
      SameWork(s, s', target, rest);
      MarkedLonger(s[n], {MergedInto(target)}, MergedInto(target));
      assert CloseOne(s', target, n) == CloseOne(s, target, n)[1..];
    }
  }

  ghost predicate NothingOnTarget(s: Tracker, target: nat, numbers: seq<nat>)
    requires target in s
  {
    && (forall m :: m in MarkersOf(s, numbers) ==> m in s[target].markers)
    && (forall n :: n in numbers ==> Marked(s[target], Listing(n, target)))
  }

  lemma OnTargetEmptyIff(s: Tracker, target: nat, numbers: seq<nat>)
    requires target in s
    ensures OnTarget(s, target, numbers) == [] <==> NothingOnTarget(s, target, numbers)
  {
    NothingMissing(s[target].markers, MarkersOf(s, numbers));
    NothingUnlisted(s[target], target, numbers);
  }

  lemma TargetProgress(s: Tracker, target: nat, numbers: seq<nat>)
    requires Accepts(s, target, numbers) && OnTarget(s, target, numbers) != []
    ensures var w := OnTarget(s, target, numbers)[0];
      && w.number == target && !w.Close?
      && target in Perform(s, w)
      && OnTarget(Perform(s, w), target, numbers) == OnTarget(s, target, numbers)[1..]
  {
    var w := OnTarget(s, target, numbers)[0];
    var s' := Perform(s, w);
    var markers := MarkersOf(s, numbers);
    SameWork(s, s', target, numbers);
    MissingIsAbsent(s[target].markers, markers);
    if w.AddMarkers? {
      NothingMissing(s'[target].markers, markers);
      UnlistedSame(s[target], s'[target], target, numbers);
    } else {
      NothingUnlisted(s[target], target, numbers);
      NothingUnlisted(s'[target], target, numbers);
      forall n | n in numbers ensures Marked(s'[target], Listing(n, target)) {
        MarkedLonger(s[target], w.marks, Listing(n, target));
      }
    }
  }

  lemma SumTail(a: seq<Write>, b: seq<Write>)
    requires a != []
    ensures (a + b)[0] == a[0] && (a + b)[1..] == a[1..] + b
  {
  }

  lemma TargetWriteAccepted(s: Tracker, target: nat, numbers: seq<nat>, w: Write)
    requires Accepts(s, target, numbers) && w.number == target && !w.Close?
    ensures Accepts(Perform(s, w), target, numbers)
  {
    var s' := Perform(s, w);
    forall k | 0 <= k < |numbers| ensures numbers[k] in s' && s'[numbers[k]] == s[numbers[k]] {}
  }

  lemma TargetWriteProgress(s: Tracker, target: nat, numbers: seq<nat>)
    requires Accepts(s, target, numbers) && OnTarget(s, target, numbers) != []
    ensures var s' := Perform(s, OnTarget(s, target, numbers)[0]);
      Accepts(s', target, numbers) && Plan(s', target, numbers) == Plan(s, target, numbers)[1..]
  {
    var w := OnTarget(s, target, numbers)[0];
    TargetProgress(s, target, numbers);
    TargetWriteAccepted(s, target, numbers, w);
    SameWork(s, Perform(s, w), target, numbers);
    SumTail(OnTarget(s, target, numbers), CloseAll(s, target, numbers));
  }

  lemma DuplicateWriteSparesTarget(s: Tracker, target: nat, numbers: seq<nat>, w: Write)
    requires Accepts(s, target, numbers) && w.number in numbers && !w.AddMarkers? && OnTarget(s, target, numbers) == []
    ensures OnTarget(Perform(s, w), target, numbers) == []
  {
    var s' := Perform(s, w);
    OnTargetEmptyIff(s, target, numbers);
    MarkersSame(s, s', numbers);
    assert s'[target] == s[target];
    OnTargetEmptyIff(s', target, numbers);
  }

  lemma CloseWriteProgress(s: Tracker, target: nat, numbers: seq<nat>)
    requires Accepts(s, target, numbers) && OnTarget(s, target, numbers) == [] && CloseAll(s, target, numbers) != []
    ensures var s' := Perform(s, CloseAll(s, target, numbers)[0]);
      Accepts(s', target, numbers) && Plan(s', target, numbers) == Plan(s, target, numbers)[1..]
  {
    CloseProgress(s, target, numbers);
    CloseKeepsMergeable(s, target, numbers);
    DuplicateWriteSparesTarget(s, target, numbers, CloseAll(s, target, numbers)[0]);
  }

  /** One write of the plan leaves the merge acceptable and exactly the rest of the plan to do. */
  lemma PlanProgress(s: Tracker, target: nat, numbers: seq<nat>)
    requires Accepts(s, target, numbers) && Plan(s, target, numbers) != []
    ensures var s' := Perform(s, Plan(s, target, numbers)[0]);
      Accepts(s', target, numbers) && Plan(s', target, numbers) == Plan(s, target, numbers)[1..]
  {
    if OnTarget(s, target, numbers) != [] {
      TargetWriteProgress(s, target, numbers);
    } else {
      assert Plan(s, target, numbers) == CloseAll(s, target, numbers);
      CloseWriteProgress(s, target, numbers);
    }
  }

  lemma {:induction false} CloseAllShape(s: Tracker, target: nat, numbers: seq<nat>)
    requires CloseAll(s, target, numbers) != []
    ensures var w := CloseAll(s, target, numbers)[0];
      w.number in numbers && w.number in s && s[w.number].open
      && (w.Close? ==> Marked(s[w.number], MergedInto(target)))
      && (w.Comment? ==> w.marks == {MergedInto(target)} && !Marked(s[w.number], MergedInto(target)))
      && !w.AddMarkers?
  {
    if CloseOne(s, target, numbers[0]) == [] { CloseAllShape(s, target, numbers[1..]); }
  }

  lemma CloseKeepsMergeable(s: Tracker, target: nat, numbers: seq<nat>)
    requires Accepts(s, target, numbers) && CloseAll(s, target, numbers) != []
    ensures Accepts(Perform(s, CloseAll(s, target, numbers)[0]), target, numbers)
  {
    CloseAllShape(s, target, numbers);
    var w := CloseAll(s, target, numbers)[0];
    var s' := Perform(s, w);
    forall k | 0 <= k < |numbers| ensures numbers[k] in s' && Mergeable(s'[numbers[k]], target) {
      if numbers[k] == w.number && w.Close? {
        assert s'[w.number].comments == s[w.number].comments;
        assert forall j :: 0 <= j < |s[w.number].comments| ==> s'[w.number].comments[j] == s[w.number].comments[j];
      }
    }
  }

  /** Stopping after any number of remote writes leaves exactly the remaining writes as the plan of the next run. */
  lemma {:induction false} ResumePlan(s: Tracker, target: nat, numbers: seq<nat>, k: nat)
    requires Accepts(s, target, numbers) && k <= |Plan(s, target, numbers)|
    ensures var plan, s' := Plan(s, target, numbers), PerformAll(s, Plan(s, target, numbers)[..k]);
      Accepts(s', target, numbers) && Plan(s', target, numbers) == plan[k..]
    decreases k
  {
    var plan := Plan(s, target, numbers);
    if k > 0 {
      PlanProgress(s, target, numbers);
      ResumePlan(Perform(s, plan[0]), target, numbers, k - 1);
      assert plan[..k][1..] == plan[1..][..k - 1];
      assert plan[1..][k - 1..] == plan[k..];
    }
  }

  // ---- crashes

  /** A run that gets at most `budget` writes out before it is stopped; a refused run writes nothing. */
  function Attempt(s: Tracker, target: nat, numbers: seq<nat>, budget: nat): Tracker {
    if !Accepts(s, target, numbers) then s
    else
      var plan := Plan(s, target, numbers);
      PerformAll(s, plan[..if budget < |plan| then budget else |plan|])
  }

  function Completed(s: Tracker, target: nat, numbers: seq<nat>): Tracker
    requires target in s
  {
    PerformAll(s, Plan(s, target, numbers))
  }

  function Attempts(s: Tracker, target: nat, numbers: seq<nat>, budgets: seq<nat>): Tracker
    decreases |budgets|
  {
    if budgets == [] then s else Attempts(Attempt(s, target, numbers, budgets[0]), target, numbers, budgets[1..])
  }

  lemma {:induction false} PerformSplit(s: Tracker, ws: seq<Write>, k: nat)
    requires k <= |ws|
    ensures PerformAll(PerformAll(s, ws[..k]), ws[k..]) == PerformAll(s, ws)
    decreases k
  {
    if k > 0 {
      PerformSplit(Perform(s, ws[0]), ws[1..], k - 1);
      assert ws[..k][1..] == ws[1..][..k - 1] && ws[1..][k - 1..] == ws[k..];
    } else {
      assert ws[..0] == [] && ws[0..] == ws;
    }
  }

  /** Whatever crashes came before, and wherever they hit, a run to the end reaches the state of an undisturbed run,
      and one more run has nothing left to do. */
  lemma {:induction false} CrashesConverge(s: Tracker, target: nat, numbers: seq<nat>, budgets: seq<nat>)
    requires Accepts(s, target, numbers)
    ensures var s' := Attempts(s, target, numbers, budgets);
      && Accepts(s', target, numbers)
      && Completed(s', target, numbers) == Completed(s, target, numbers)
      && Accepts(Completed(s, target, numbers), target, numbers)
      && Plan(Completed(s, target, numbers), target, numbers) == []
    decreases |budgets|
  {
    var plan := Plan(s, target, numbers);
    ResumePlan(s, target, numbers, |plan|);
    assert plan[..|plan|] == plan;
    if budgets != [] {
      var k := if budgets[0] < |plan| then budgets[0] else |plan|;
      ResumePlan(s, target, numbers, k);
      PerformSplit(s, plan, k);
      CrashesConverge(Attempt(s, target, numbers, budgets[0]), target, numbers, budgets[1..]);
    }
  }

  // ---- no mark twice, no fingerprint lost

  /** No mark stands in two comments of an issue. */
  ghost predicate MarksOnce(s: Tracker) {
    forall n, i, j :: n in s && 0 <= i < j < |s[n].comments| ==> s[n].comments[i] !! s[n].comments[j]
  }

  /** An open root carries the fingerprint, so an occurrence is attached to it instead of opening another root. */
  ghost predicate Covered(s: Tracker, marker: string) {
    exists n :: n in s && s[n].open && Generated(s[n]) && marker in s[n].markers
  }

  lemma {:induction false} MarkersOfAll(s: Tracker, numbers: seq<nat>, n: nat)
    requires n in numbers && n in s
    ensures forall m :: m in s[n].markers ==> m in MarkersOf(s, numbers)
  {
    if numbers[0] != n { MarkersOfAll(s, numbers[1..], n); }
  }

  /** A planned comment carries only marks that its issue does not have yet. */
  lemma CommentIsNew(s: Tracker, target: nat, numbers: seq<nat>, m: Mark)
    requires Accepts(s, target, numbers) && Plan(s, target, numbers) != []
    requires var w := Plan(s, target, numbers)[0]; w.Comment? && m in w.marks
    ensures var w := Plan(s, target, numbers)[0]; w.number in s && !Marked(s[w.number], m)
  {
    NothingUnlisted(s[target], target, numbers);
    if OnTarget(s, target, numbers) == [] { CloseAllShape(s, target, numbers); }
  }

  lemma CommentKeepsMarksOnce(s: Tracker, n: nat, marks: set<Mark>)
    requires MarksOnce(s) && n in s && forall m :: m in marks ==> !Marked(s[n], m)
    ensures MarksOnce(Perform(s, Comment(n, marks)))
  {
    forall k | 0 <= k < |s[n].comments| ensures s[n].comments[k] !! marks {
      forall m | m in marks ensures m !in s[n].comments[k] { assert !Marked(s[n], m); }
    }
  }

  lemma WriteKeepsMarksOnce(s: Tracker, target: nat, numbers: seq<nat>)
    requires Accepts(s, target, numbers) && Plan(s, target, numbers) != [] && MarksOnce(s)
    ensures MarksOnce(Perform(s, Plan(s, target, numbers)[0]))
  {
    var w := Plan(s, target, numbers)[0];
    if w.Comment? && w.number in s {
      forall m | m in w.marks ensures !Marked(s[w.number], m) { CommentIsNew(s, target, numbers, m); }
      CommentKeepsMarksOnce(s, w.number, w.marks);
    }
  }

  lemma WriteKeepsCovered(s: Tracker, target: nat, numbers: seq<nat>, marker: string)
    requires Accepts(s, target, numbers) && Plan(s, target, numbers) != [] && Covered(s, marker)
    ensures Covered(Perform(s, Plan(s, target, numbers)[0]), marker)
  {
    var w := Plan(s, target, numbers)[0];
    var s' := Perform(s, w);
    var n :| n in s && s[n].open && Generated(s[n]) && marker in s[n].markers;
    if w.Close? && n == w.number {
      OnTargetEmptyIff(s, target, numbers);
      CloseAllShape(s, target, numbers);
      MarkersOfAll(s, numbers, n);
      assert s'[target] == s[target];
    } else {
      assert s'[n].open && Generated(s'[n]) && marker in s'[n].markers;
    }
  }

  lemma {:induction false} PrefixKeepsPromises(s: Tracker, target: nat, numbers: seq<nat>, k: nat)
    requires Accepts(s, target, numbers) && k <= |Plan(s, target, numbers)|
    ensures var s' := PerformAll(s, Plan(s, target, numbers)[..k]);
      (MarksOnce(s) ==> MarksOnce(s')) && forall m :: Covered(s, m) ==> Covered(s', m)
    decreases k
  {
    if k > 0 {
      var plan := Plan(s, target, numbers);
      if MarksOnce(s) { WriteKeepsMarksOnce(s, target, numbers); }
      forall m | Covered(s, m) ensures Covered(Perform(s, plan[0]), m) { WriteKeepsCovered(s, target, numbers, m); }
      PlanProgress(s, target, numbers);
      PrefixKeepsPromises(Perform(s, plan[0]), target, numbers, k - 1);
      assert plan[..k][1..] == plan[1..][..k - 1];
    }
  }

  // ---- whole histories of merges and routed events

  /** A merge command stopped after `budget` writes, or the routing of an event: attached to an open root that carries
      the fingerprint, else a new root under the number GitHub assigns. */
  datatype Action = Merge(target: nat, numbers: seq<nat>, budget: nat) | Route(marker: string, newNumber: nat)

  ghost function Act(s: Tracker, a: Action): Tracker {
    match a
    case Merge(target, numbers, budget) => Attempt(s, target, numbers, budget)
    case Route(marker, newNumber) =>
      if Covered(s, marker) || newNumber in s then s else s[newNumber := Issue(true, true, [marker], [])]
  }

  ghost function ActAll(s: Tracker, acts: seq<Action>): Tracker
    decreases |acts|
  {
    if acts == [] then s else ActAll(Act(s, acts[0]), acts[1..])
  }

  /** Through any history of merges, crashes and routed events, no mark is ever posted twice on an issue, and a
      fingerprint that has an open root keeps one at every moment: no second root is ever opened for it. */
  lemma {:induction false} HistoryKeepsPromises(s: Tracker, acts: seq<Action>)
    ensures MarksOnce(s) ==> MarksOnce(ActAll(s, acts))
    ensures forall m :: Covered(s, m) ==> Covered(ActAll(s, acts), m)
    decreases |acts|
  {
    if acts != [] {
      var a, s' := acts[0], Act(s, acts[0]);
      if a.Merge? && Accepts(s, a.target, a.numbers) {
        var plan := Plan(s, a.target, a.numbers);
        PrefixKeepsPromises(s, a.target, a.numbers, if a.budget < |plan| then a.budget else |plan|);
      } else if a.Route? && s' != s {
        forall m | Covered(s, m) ensures Covered(s', m) {
          var n :| n in s && s[n].open && Generated(s[n]) && m in s[n].markers;
          assert s'[n] == s[n];
        }
      }
      HistoryKeepsPromises(s', acts[1..]);
    }
  }

  // ---- the command itself

  datatype Outcome = Refused | Crashed | Merged(added: seq<string>, listed: seq<nat>, closed: seq<nat>)

  function Deduplicated(q: seq<nat>): seq<nat> {
    if q == [] then []
    else
      var front := Deduplicated(q[..|q| - 1]);
      if q[|q| - 1] in front then front else front + [q[|q| - 1]]
  }

  lemma {:induction false} DeduplicatedDistinct(q: seq<nat>)
    ensures DistinctNumbers(Deduplicated(q))
    ensures forall n :: n in Deduplicated(q) <==> n in q
  {
    if q != [] {
      DeduplicatedDistinct(q[..|q| - 1]);
      assert q == q[..|q| - 1] + [q[|q| - 1]];
    }
  }

  lemma {:induction false} CloseAllSplit(s: Tracker, target: nat, numbers: seq<nat>, k: nat)
    requires k <= |numbers|
    ensures CloseAll(s, target, numbers) == CloseAll(s, target, numbers[..k]) + CloseAll(s, target, numbers[k..])
    decreases k
  {
    if k > 0 {
      CloseAllSplit(s, target, numbers[1..], k - 1);
      assert numbers[..k][1..] == numbers[1..][..k - 1] && numbers[1..][k - 1..] == numbers[k..];
    } else {
      assert numbers[0..] == numbers;
    }
  }

  lemma PerformNext(s: Tracker, ws: seq<Write>, w: Write)
    ensures PerformAll(s, ws + [w]) == Perform(PerformAll(s, ws), w)
  {
    PerformSplit(s, ws + [w], |ws|);
    assert (ws + [w])[..|ws|] == ws && (ws + [w])[|ws|..] == [w];
    assert PerformAll(Perform(PerformAll(s, ws), w), []) == Perform(PerformAll(s, ws), w);
  }

  function OpenOnes(s: Tracker, numbers: seq<nat>): seq<nat> {
    if numbers == [] then []
    else
      var last := numbers[|numbers| - 1];
      OpenOnes(s, numbers[..|numbers| - 1]) + if last in s && s[last].open then [last] else []
  }

  /** GitHub as the command sees it; `budget` is how many more writes go through before the process is stopped. */
  class GitHub {
    var issues: Tracker
    var budget: nat

    constructor (s: Tracker, writes: nat)
      ensures issues == s && budget == writes
    {
      issues, budget := s, writes;
    }

    /** One remote write, `done` being those of this run so far; without budget the process dies before it. */
    method Write(w: Write, ghost s: Tracker, ghost plan: seq<Write>, ghost done: seq<Write>) returns (ok: bool)
      requires issues == PerformAll(s, done) && done + [w] <= plan
      modifies this
      ensures ok == (old(budget) > 0)
      ensures ok ==> issues == Perform(old(issues), w) && issues == PerformAll(s, done + [w]) && budget == old(budget) - 1
      ensures !ok ==> issues == old(issues) && issues == PerformAll(s, plan[..|done|])
    {
      assert plan[..|done|] == done;
      if budget == 0 { return false; }
      PerformNext(s, done, w);
      issues := Perform(issues, w);
      budget := budget - 1;
      return true;
    }

    /** The read-only part: fetch the target and every duplicate, refuse before anything is written. */
    method Check(target: nat, numbers: seq<nat>) returns (ok: bool, wasOpen: seq<bool>)
      requires DistinctNumbers(numbers)
      ensures ok == Accepts(issues, target, numbers)
      ensures ok ==> |wasOpen| == |numbers| && forall j: nat :: j < |numbers| ==> wasOpen[j] == issues[numbers[j]].open
    {
      wasOpen := [];
      ok := target !in numbers && target in issues && issues[target].open && Generated(issues[target]);
      if !ok { return; }
      for k := 0 to |numbers|
        invariant |wasOpen| == k
        invariant forall j: nat :: j < k ==> numbers[j] in issues && Mergeable(issues[numbers[j]], target)
        invariant forall j: nat :: j < k ==> numbers[j] in issues && wasOpen[j] == issues[numbers[j]].open
      {
        var n := numbers[k];
        if n !in issues || !Mergeable(issues[n], target) { return false, wasOpen; }
        wasOpen := wasOpen + [issues[n].open];
      }
    }

    /** Markers and listing comment on the target come first. */
    method UpdateTarget(target: nat, numbers: seq<nat>) returns (ok: bool, added: seq<string>, listed: seq<nat>)
      requires Accepts(issues, target, numbers)
      modifies this
      ensures var s, plan := old(issues), Plan(old(issues), target, numbers);
        && added == Missing(s[target].markers, MarkersOf(s, numbers))
        && (ok ==> issues == PerformAll(s, OnTarget(s, target, numbers)) && listed == Unlisted(s[target], target, numbers)
                   && budget + |OnTarget(s, target, numbers)| == old(budget))
        && (!ok ==> old(budget) < |plan| && issues == PerformAll(s, plan[..old(budget)]))
    {
      ghost var s := issues;
      ghost var plan := Plan(s, target, numbers);
      ghost var done: seq<Write> := [];
      listed := [];
      added := Missing(issues[target].markers, MarkersOf(issues, numbers));
      if added != [] {
        ok := Write(AddMarkers(target, added), s, plan, done);
        if !ok { return; }
        done := done + [AddMarkers(target, added)];
      }
      UnlistedSame(issues[target], s[target], target, numbers);
      listed := Unlisted(issues[target], target, numbers);
      if listed != [] {
        ok := Write(Comment(target, Listings(target, listed)), s, plan, done);
        if !ok { return; }
        done := done + [Comment(target, Listings(target, listed))];
      }
      assert done == OnTarget(s, target, numbers);
      return true, added, listed;
    }

    method CloseDuplicate(target: nat, n: nat, ghost s: Tracker, ghost plan: seq<Write>, ghost done: seq<Write>) returns (ok: bool)
      requires n in issues && n in s && issues[n] == s[n] && s[n].open
      requires issues == PerformAll(s, done) && done + CloseOne(s, target, n) <= plan
      modifies this
      ensures ok ==> issues == PerformAll(s, done + CloseOne(s, target, n))
                     && budget + |CloseOne(s, target, n)| == old(budget)
      ensures ok ==> forall m :: m in old(issues) && m != n ==> m in issues && issues[m] == old(issues)[m]
      ensures !ok ==> |done| + old(budget) < |plan| && issues == PerformAll(s, plan[..|done| + old(budget)])
    {
      ghost var now := done;
      if !Marked(issues[n], MergedInto(target)) {
        ok := Write(Comment(n, {MergedInto(target)}), s, plan, now);
        if !ok { return; }
        now := now + [Comment(n, {MergedInto(target)})];
      }
      ok := Write(Close(n), s, plan, now);
      assert ok ==> now + [Close(n)] == done + CloseOne(s, target, n);
    }

    method CloseDuplicates(target: nat, numbers: seq<nat>, wasOpen: seq<bool>, ghost s: Tracker) returns (ok: bool, closed: seq<nat>)
      requires Accepts(s, target, numbers) && issues == PerformAll(s, OnTarget(s, target, numbers))
      requires |wasOpen| == |numbers| && forall j: nat :: j < |numbers| ==> wasOpen[j] == s[numbers[j]].open
      modifies this
      ensures var before, plan := |OnTarget(s, target, numbers)|, Plan(s, target, numbers);
        && (ok ==> issues == PerformAll(s, plan) && closed == OpenOnes(s, numbers) && before + old(budget) >= |plan|)
        && (!ok ==> before + old(budget) < |plan| && issues == PerformAll(s, plan[..before + old(budget)]))
    {
      ghost var plan := Plan(s, target, numbers);
      ghost var done := OnTarget(s, target, numbers);
      TargetWritesSpareDuplicates(s, target, numbers);
      closed := [];
      for k := 0 to |numbers|
        invariant issues == PerformAll(s, done) && budget + |done| == |OnTarget(s, target, numbers)| + old(budget)
        invariant done == DoneBefore(s, target, numbers, k)
        invariant closed == OpenOnes(s, numbers[..k])
        invariant forall j: nat :: k <= j < |numbers| ==> numbers[j] in issues && issues[numbers[j]] == s[numbers[j]]
      {
        var n := numbers[k];
        DoneNext(s, target, numbers, k);
        OpenNext(s, numbers, k);
        if !wasOpen[k] { continue; }
        ok := CloseDuplicate(target, n, s, plan, done);
        if !ok { return; }
        done := done + CloseOne(s, target, n);
        closed := closed + [n];
      }
      AllDone(s, target, numbers);
      return true, closed;
    }

    method MergeRoots(target: nat, duplicates: seq<nat>) returns (outcome: Outcome)
      modifies this
      ensures var s, numbers := old(issues), Deduplicated(duplicates);
        && (outcome == Refused <==> duplicates == [] || !Accepts(s, target, numbers))
        && (outcome == Refused ==> issues == s)
        && (outcome != Refused ==> (
              && issues == Attempt(s, target, numbers, old(budget))
              && (outcome == Crashed <==> old(budget) < |Plan(s, target, numbers)|)))
        && (outcome.Merged? ==> (
              && outcome.added == Missing(s[target].markers, MarkersOf(s, numbers))
              && outcome.listed == Unlisted(s[target], target, numbers)
              && outcome.closed == OpenOnes(s, numbers)))
    {
      ghost var s := issues;
      if duplicates == [] { return Refused; }
      var numbers: seq<nat> := Deduplicated(duplicates);
      DeduplicatedDistinct(duplicates);
      var ok, wasOpen := Check(target, numbers);
      if !ok { return Refused; }
      ghost var plan := Plan(s, target, numbers);
      assert plan[..|plan|] == plan;
      var added, listed, closed;
      ok, added, listed := UpdateTarget(target, numbers);
      if !ok { return Crashed; }
      ok, closed := CloseDuplicates(target, numbers, wasOpen, s);
      if !ok { return Crashed; }
      return Merged(added, listed, closed);
    }
  }

  lemma {:induction false} WritesElsewhere(s: Tracker, ws: seq<Write>, n: nat)
    requires n in s && forall k :: 0 <= k < |ws| ==> ws[k].number != n
    ensures n in PerformAll(s, ws) && PerformAll(s, ws)[n] == s[n]
    decreases |ws|
  {
    if ws != [] { WritesElsewhere(Perform(s, ws[0]), ws[1..], n); }
  }

  lemma TargetWritesSpareDuplicates(s: Tracker, target: nat, numbers: seq<nat>)
    requires Accepts(s, target, numbers)
    ensures var s' := PerformAll(s, OnTarget(s, target, numbers));
      forall n :: n in numbers ==> n in s' && s'[n] == s[n]
  {
    forall n | n in numbers
      ensures n in PerformAll(s, OnTarget(s, target, numbers)) && PerformAll(s, OnTarget(s, target, numbers))[n] == s[n]
    {
      WritesElsewhere(s, OnTarget(s, target, numbers), n);
    }
  }

  /** The writes that come before those for the `k`-th duplicate. */
  ghost function DoneBefore(s: Tracker, target: nat, numbers: seq<nat>, k: nat): seq<Write>
    requires target in s && k <= |numbers|
  {
    OnTarget(s, target, numbers) + CloseAll(s, target, numbers[..k])
  }

  lemma SumAssociates(a: seq<Write>, b: seq<Write>, c: seq<Write>)
    ensures a + (b + c) == a + b + c
  {
  }

  lemma DoneNext(s: Tracker, target: nat, numbers: seq<nat>, k: nat)
    requires target in s && k < |numbers|
    ensures DoneBefore(s, target, numbers, k + 1) == DoneBefore(s, target, numbers, k) + CloseOne(s, target, numbers[k])
    ensures DoneBefore(s, target, numbers, k) + CloseOne(s, target, numbers[k]) <= Plan(s, target, numbers)
  {
    PlanAt(s, target, numbers, k);
    CloseAllNext(s, target, numbers, k);
    SumAssociates(OnTarget(s, target, numbers), CloseAll(s, target, numbers[..k]), CloseOne(s, target, numbers[k]));
  }

  lemma AllDone(s: Tracker, target: nat, numbers: seq<nat>)
    requires target in s
    ensures DoneBefore(s, target, numbers, |numbers|) == Plan(s, target, numbers)
    ensures OpenOnes(s, numbers[..|numbers|]) == OpenOnes(s, numbers)
  {
    assert numbers[..|numbers|] == numbers;
  }

  lemma OpenNext(s: Tracker, numbers: seq<nat>, k: nat)
    requires k < |numbers| && numbers[k] in s
    ensures OpenOnes(s, numbers[..k + 1]) == OpenOnes(s, numbers[..k]) + if s[numbers[k]].open then [numbers[k]] else []
  {
    assert numbers[..k + 1][..k] == numbers[..k];
  }

  lemma SumPrefix(a: seq<Write>, b: seq<Write>, c: seq<Write>, d: seq<Write>)
    ensures a + b + c <= a + (b + (c + d))
  {
    assert a + (b + (c + d)) == (a + b + c) + d;
  }

  /** Where the writes for the `k`-th duplicate stand in the plan. */
  lemma PlanAt(s: Tracker, target: nat, numbers: seq<nat>, k: nat)
    requires target in s && k < |numbers|
    ensures OnTarget(s, target, numbers) + CloseAll(s, target, numbers[..k]) + CloseOne(s, target, numbers[k])
            <= Plan(s, target, numbers)
  {
    CloseAllSplit(s, target, numbers, k);
    SumPrefix(OnTarget(s, target, numbers), CloseAll(s, target, numbers[..k]), CloseOne(s, target, numbers[k]),
              CloseAll(s, target, numbers[k..][1..]));
  }

  lemma CloseAllNext(s: Tracker, target: nat, numbers: seq<nat>, k: nat)
    requires k < |numbers|
    ensures CloseAll(s, target, numbers[..k + 1]) == CloseAll(s, target, numbers[..k]) + CloseOne(s, target, numbers[k])
  {
    CloseAllSplit(s, target, numbers[..k + 1], k);
    assert numbers[..k + 1][..k] == numbers[..k] && numbers[..k + 1][k..] == [numbers[k]];
    assert CloseAll(s, target, [numbers[k]]) == CloseOne(s, target, numbers[k]) + CloseAll(s, target, []);
  }
}
