/** What the repository itself says about a board entry, and the consequences for the board: which branches
    count as merged, which entries `doctor --fix` removes, and why exclusion needs its condition. */
module RepositoryStatus {
  import opened Results
  import opened Ordering
  import opened CommitGraph
  import opened ScopeBoard
  import opened ScopeExclusion

  datatype Repository = Repository(
    graph: Graph,
    main: string,
    branches: map<string, Commit>,
    mergedPrs: set<string>,
    checkedOut: map<string, Option<string>>)

  ghost predicate ValidRepository(r: Repository) {
    && r.main in r.branches
    && forall b :: b in r.branches ==> Known(r.graph, r.branches[b])
  }

  type Repo = r: Repository | ValidRepository(r)
    witness Repository(History([[]]), "main", map["main" := 0], {}, map[])

  function WorktreeProblems(r: Repo, e: Item): seq<Problem> {
    if e.worktree == "" || e.worktree !in r.checkedOut then [WorktreeMissing]
    else if e.branch != "" && r.checkedOut[e.worktree] != Some(e.branch) then [BranchPathMismatch]
    else []
  }

  function BranchProblems(r: Repo, e: Item): seq<Problem> {
    if e.branch == "" || e.branch !in r.branches then [BranchMissing]
    else if e.branch == r.main then []
    else
      var head, main, pr := r.branches[e.branch], r.branches[r.main], e.branch in r.mergedPrs;
      if Ancestor(r.graph, head, main) then
        match AncestorMergeProblem(r.graph, e.baseHead, head, main, pr)
        case None => []
        case Some(kind) => [Merged(kind)]
      else if pr then [Merged(MergedPr)] else []
  }

  function Status(r: Repo, now: int, e: Item, staleHours: int): seq<Problem> {
    WorktreeProblems(r, e) + BranchProblems(r, e) + if e.heartbeat < now - staleHours then [StaleHeartbeat] else []
  }

  /** The board's world as observed in a repository at one moment. */
  ghost predicate Observes(w: World, r: Repo) {
    && w.branches == r.branches && w.checkedOut == r.checkedOut
    && forall e, h :: w.status(e, h) == Status(r, w.now, e, h)
  }

  // ---- what makes an entry terminal

  /** With the worktree in place, an entry is terminal exactly when GitHub proves its exact pull request merged and
      its branch moved or left main, or its branch moved on from its registration base and is contained in main
      with the tip off main's first-parent line. A branch still at its base is never terminal while contained. */
  lemma TerminalIff(w: World, r: Repo, e: Item, h: int)
    requires Observes(w, r) && e.branch in r.branches && e.branch != "" && e.branch != r.main
    ensures var head, main, pr := r.branches[e.branch], r.branches[r.main], e.branch in r.mergedPrs;
      EligibilityOf(w.status(e, h)) == Terminal <==>
        if !Ancestor(r.graph, head, main) then pr
        else
          || (e.baseHead.None? && pr)
          || (e.baseHead.Some? && Known(r.graph, e.baseHead.value) && head != e.baseHead.value
              && (pr || (Ancestor(r.graph, e.baseHead.value, head) && !OnLine(r.graph, head, main))))
  {
    var head, main, pr := r.branches[e.branch], r.branches[r.main], e.branch in r.mergedPrs;
    MergedBranchIff(r.graph, e.baseHead, head, main, pr);
    TerminalFromBranch(r, w.now, e, h);
  }

  lemma TerminalFromBranch(r: Repo, now: int, e: Item, h: int)
    ensures EligibilityOf(Status(r, now, e, h)) == Terminal <==>
            Merged(MergedBranch) in BranchProblems(r, e) || Merged(MergedPr) in BranchProblems(r, e)
  {
    var stale := if e.heartbeat < now - h then [StaleHeartbeat] else [];
    assert Status(r, now, e, h) == WorktreeProblems(r, e) + BranchProblems(r, e) + stale;
  }

  // ---- doctor --fix

  /** The entries that `doctor --fix` finds safe to remove for their own sake. */
  ghost function Hopeless(w: World, items: seq<Item>, staleHours: int): (bad: set<Item>)
    ensures forall e :: e in bad <==> e in items && SafeToRemove(w, e, staleHours)
  {
    set e | e in items && SafeToRemove(w, e, staleHours)
  }

  lemma DoctorKeeps(w: World, items: seq<Item>, staleHours: int, e: Item)
    ensures e in After(w, DoctorFix(staleHours), items) <==>
            e in items && forall x :: x in Hopeless(w, items, staleHours) ==> x.id != e.id
  {
    KeepMembers(items, Removable(w, items, staleHours));
  }

  /** Whatever staleness limit is used, an active entry is never safe to remove for its own sake. */
  lemma ActiveIsNotRemovable(w: World, r: Repo, e: Item, staleHours: int)
    requires Observes(w, r) && Active(w, e)
    ensures !SafeToRemove(w, e, staleHours)
  {
    assert Status(r, w.now, e, DEFAULT_STALE_HOURS) == [];
    assert WorktreeProblems(r, e) + BranchProblems(r, e) == [];
  }

  /** `doctor --fix` removes an active entry exactly when an entry safe to remove carries the same id;
      registration accepts any id, so only distinct ids protect active entries. */
  lemma DoctorRemovesActiveIff(w: World, r: Repo, items: seq<Item>, staleHours: int, i: nat)
    requires Observes(w, r) && i < |items| && Active(w, items[i])
    ensures items[i] !in Hopeless(w, items, staleHours)
    ensures items[i] !in After(w, DoctorFix(staleHours), items) <==>
            exists x :: x in Hopeless(w, items, staleHours) && x.id == items[i].id
  {
    ActiveIsNotRemovable(w, r, items[i], staleHours);
    DoctorKeeps(w, items, staleHours, items[i]);
  }

  /** With distinct ids `doctor --fix` removes the entries safe to remove and nothing else. */
  lemma DoctorExactWithDistinctIds(w: World, items: seq<Item>, staleHours: int, e: Item)
    requires forall i, j :: 0 <= i < j < |items| ==> items[i].id != items[j].id
    ensures e in After(w, DoctorFix(staleHours), items) <==> e in items && e !in Hopeless(w, items, staleHours)
  {
    DoctorKeeps(w, items, staleHours, e);
    forall x, y | x in items && y in items && x.id == y.id ensures x == y {
      var i :| 0 <= i < |items| && items[i] == x;
      var j :| 0 <= j < |items| && items[j] == y;
    }
  }

  // ---- why exclusion needs its condition

  function DemoRepo(): Repo {
    Repository(History([[]]), "main", map["main" := 0, "a" := 0, "b" := 0], {}, map["A" := Some("a"), "B" := Some("b")])
  }

  function DemoWorld(r: Repo, now: int): World {
    World(now, "root", r.branches, r.checkedOut, {"A", "B"}, {}, (e, h) => Status(r, now, e, h),
          s => {s}, t => Some({}), Some({}))
  }

  /** Register and admit "a"; long after, register and admit "b" for the same file; then "a" sends a heartbeat. */
  function DemoRun(r: Repo, late: int): seq<Step> {
    [ Step(DemoWorld(r, 0), Start("1", "", "f", "a", "A", false)),
      Step(DemoWorld(r, 0), Admit("A", "a", None)),
      Step(DemoWorld(r, late), Start("2", "", "f", "b", "B", false)),
      Step(DemoWorld(r, late), Admit("B", "b", None)),
      Step(DemoWorld(r, late), Update("1", None, None)) ]
  }

  function DemoItem(id: string, branch: string, worktree: string, now: int): Item {
    Item(id, "", "f", branch, worktree, Some(0), now, [], [], Undecided)
  }

  function Holding(e: Item): Item {
    e.(claims := ["f"], admission := Run(e.heartbeat))
  }

  lemma DemoAdmission(w: World, items: seq<Item>, i: nat)
    requires i < |items| && items[i].scope == "f" && items[i].worktree != "" && items[i].heartbeat == w.now
    requires w.concrete("f") == {"f"} && w.factual(items[i].worktree) == Some({}) && w.generated == Some({})
    requires forall j :: 0 <= j < |items| && j != i ==> !Active(w, items[j])
    ensures Decided(w, items, i) == Ok(items[i := Holding(items[i])])
  {
    ConflictsEmptyIff(w, items, i);
    assert Candidates(w, items[i]).value == {"f"};
    SortedSingleton("f");
  }

  lemma DemoStatus(late: int, a: Item, b: Item)
    requires late > DEFAULT_STALE_HOURS
    requires a == Holding(DemoItem("1", "a", "A", 0)) && b == Holding(DemoItem("2", "b", "B", late))
    ensures var w := DemoWorld(DemoRepo(), late);
      !Active(w, a) && Active(w, a.(heartbeat := late)) && Active(w, b)
  {
    var r := DemoRepo();
    assert StaleHeartbeat in Status(r, late, a, DEFAULT_STALE_HOURS);
    assert Status(r, late, a.(heartbeat := late), DEFAULT_STALE_HOURS) == [];
    assert Status(r, late, b, DEFAULT_STALE_HOURS) == [];
  }

  /** Registering on a board that leaves the place free appends the entry. */
  lemma DemoRegister(r: Repo, now: int, items: seq<Item>, c: Command)
    requires c.Start?
    requires c == Start(c.id, "", "f", "a", "A", false) || c == Start(c.id, "", "f", "b", "B", false)
    requires r == DemoRepo() && !Taken(items, c.worktree, c.branch)
    ensures After(DemoWorld(r, now), c, items) == items + [DemoItem(c.id, c.branch, c.worktree, now)]
  {
  }

  lemma {:induction false} FindsOnly(items: seq<Item>, worktree: string, branch: string, i: nat, k: nat)
    requires k <= i < |items| && items[i].worktree == worktree && items[i].branch == branch
    requires forall j :: 0 <= j < |items| && j != i ==> items[j].worktree != worktree
    ensures Find(items, worktree, branch, k) == Some(i)
    decreases i - k
  {
    if k < i { FindsOnly(items, worktree, branch, i, k + 1); }
  }

  lemma DemoAdmit(r: Repo, now: int, items: seq<Item>, i: nat, c: Command)
    requires r == DemoRepo() && i < |items| && items[i] == DemoItem(items[i].id, items[i].branch, items[i].worktree, now)
    requires c == Admit(items[i].worktree, items[i].branch, None)
    requires (c.worktree, c.branch) == ("A", "a") || (c.worktree, c.branch) == ("B", "b")
    requires forall j :: 0 <= j < |items| && j != i ==> items[j].worktree != c.worktree && !Active(DemoWorld(r, now), items[j])
    ensures After(DemoWorld(r, now), c, items) == items[i := Holding(items[i])]
  {
    var w := DemoWorld(r, now);
    FindsOnly(items, c.worktree, c.branch, i, 0);
    assert items[i := Touched(w, items[i], None)] == items;
    DemoAdmission(w, items, i);
  }

  /** A run of five steps, followed state by state. */
  lemma ExecFive(run: seq<Step>, states: seq<seq<Item>>)
    requires |run| == 5 && |states| == 6 && states[0] == []
    requires forall k :: 0 <= k < 5 ==> states[k + 1] == After(run[k].w, run[k].c, states[k])
    ensures Exec(run) == states[5]
  {
    for k := 0 to 5
      invariant Exec(run[..k]) == states[k]
    {
      ExecNext(run, k);
    }
    assert run[..5] == run;
  }

  function DemoStates(late: int): seq<seq<Item>> {
    var a, b := DemoItem("1", "a", "A", 0), DemoItem("2", "b", "B", late);
    [[], [a], [Holding(a)], [Holding(a), b], [Holding(a), Holding(b)], [Holding(a).(heartbeat := late), Holding(b)]]
  }

  lemma DemoStep(r: Repo, late: int, k: nat)
    requires r == DemoRepo() && late > DEFAULT_STALE_HOURS && k < 5
    ensures var s := DemoRun(r, late)[k]; DemoStates(late)[k + 1] == After(s.w, s.c, DemoStates(late)[k])
  {
    var c, a, b := DemoRun(r, late)[k].c, DemoItem("1", "a", "A", 0), DemoItem("2", "b", "B", late);
    if k == 0 { DemoRegister(r, 0, [], c); }
    else if k == 1 { DemoAdmit(r, 0, [a], 0, c); }
    else if k == 2 { DemoRegister(r, late, [Holding(a)], c); }
    else if k == 3 {
      DemoStatus(late, Holding(a), Holding(b));
      DemoAdmit(r, late, [Holding(a), b], 1, c);
    }
  }

  lemma DemoExec(r: Repo, late: int)
    requires r == DemoRepo() && late > DEFAULT_STALE_HOURS
    ensures Exec(DemoRun(r, late)) == DemoStates(late)[5]
  {
    var run, states := DemoRun(r, late), DemoStates(late);
    forall k | 0 <= k < 5 ensures states[k + 1] == After(run[k].w, run[k].c, states[k]) { DemoStep(r, late, k); }
    ExecFive(run, states);
  }

  lemma DemoClash(late: int)
    requires late > DEFAULT_STALE_HOURS
    ensures var w, items := DemoWorld(DemoRepo(), late), DemoStates(late)[5];
      Active(w, items[0]) && Active(w, items[1]) && !Apart(items[0], items[1], {})
  {
    DemoStatus(late, DemoStates(late)[4][0], DemoStates(late)[4][1]);
    assert "f" in DemoStates(late)[5][0].claims && "f" in DemoStates(late)[5][1].claims;
  }

  /** A task goes stale, a second one is admitted to its file, and a heartbeat revives the first:
      both are active, both hold the file, nobody acknowledged anything. */
  lemma RevivalBreaksExclusion(late: int) returns (run: seq<Step>, w: World)
    requires late > DEFAULT_STALE_HOURS
    ensures FixedGenerated(run, {}) && |Exec(run)| == 2
    ensures Active(w, Exec(run)[0]) && Active(w, Exec(run)[1]) && !Apart(Exec(run)[0], Exec(run)[1], {})
  {
    run, w := DemoRun(DemoRepo(), late), DemoWorld(DemoRepo(), late);
    DemoExec(DemoRepo(), late);
    DemoClash(late);
  }

  // ---- why `doctor --fix` needs distinct ids

  /** Two tasks are registered under one id, the worktree of the first is deleted, and `doctor --fix` is run. */
  function SameIdRun(r: Repo, later: Repo): seq<Step> {
    [ Step(DemoWorld(r, 0), Start("1", "", "f", "a", "A", false)),
      Step(DemoWorld(r, 0), Start("1", "", "f", "b", "B", false)),
      Step(DemoWorld(later, 0), DoctorFix(DEFAULT_STALE_HOURS)) ]
  }

  lemma SameIdStatus(w: World, later: Repo, a: Item, b: Item)
    requires later == DemoRepo().(checkedOut := map["B" := Some("b")]) && w == DemoWorld(later, 0)
    requires a == DemoItem("1", "a", "A", 0) && b == DemoItem("1", "b", "B", 0)
    ensures SafeToRemove(w, a, DEFAULT_STALE_HOURS) && Active(w, b)
  {
    assert WorktreeProblems(later, a) == [WorktreeMissing];
    assert Status(later, 0, a, DEFAULT_STALE_HOURS)[0] == WorktreeMissing;
    assert Status(later, 0, b, DEFAULT_STALE_HOURS) == [];
  }

  lemma SameIdDropped(w: World, a: Item, b: Item)
    requires a.id == b.id && SafeToRemove(w, a, DEFAULT_STALE_HOURS)
    ensures After(w, DoctorFix(DEFAULT_STALE_HOURS), [a, b]) == []
  {
    var dropped := Removable(w, [a, b], DEFAULT_STALE_HOURS);
    assert a in [a, b] && a.id in dropped;
    assert [a, b][1..] == [b] && [b][1..] == [];
    assert Keep([b], dropped) == [];
  }

  /** The second task is active, its worktree and branch as registered, and loses its entry with the first. */
  lemma SameIdRemovesActive() returns (run: seq<Step>, later: Repo)
    ensures |run| == 3 && run[2].c.DoctorFix? && Observes(run[2].w, later)
    ensures |Exec(run[..2])| == 2 && Exec(run[..2])[1].worktree == "B" && Active(run[2].w, Exec(run[..2])[1])
    ensures Exec(run) == []
  {
    var r := DemoRepo();
    later := r.(checkedOut := map["B" := Some("b")]);
    run := SameIdRun(r, later);
    var a, b := DemoItem("1", "a", "A", 0), DemoItem("1", "b", "B", 0);
    ExecNext(run, 0);
    DemoRegister(r, 0, [], run[0].c);
    assert [] + [a] == [a] && Exec(run[..0]) == [];
    ExecNext(run, 1);
    DemoRegister(r, 0, [a], run[1].c);
    assert [a] + [b] == [a, b];
    ExecNext(run, 2);
    SameIdStatus(run[2].w, later, a, b);
    SameIdDropped(run[2].w, a, b);
    assert run[..3] == run;
  }
}
