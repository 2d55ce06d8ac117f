/** The rollout as it steps through one working tree, and a run in which it loses an edit. */
module RecopyRun {
  import opened Results
  import opened RecopyModel
  import opened RecopySafety

  /** The downstream checkout that the rollout changes. */
  class Checkout {
    var tree: Tree

    constructor (tree: Tree)
      ensures this.tree == tree
    {
      this.tree := tree;
    }

    /** Adds the reference to AGENTS.md where it belongs. */
    method Reconcile(e: Setting) returns (r: Option<Refusal>)
      requires e.marker != []
      modifies this
      ensures match Reconciled(e, old(tree)) case Ok(t) => r.None? && tree == t case Err(why) => r == Some(why) && tree == old(tree)
    {
      var c := ConfigOf(e, tree);
      if c.None? { return Some(ConfigUnreadable); }
      if !c.value.managed { return None; }
      if ContentOf(At(tree, IntakeContract)).None? { return Some(ContractMissing); }
      var text := ContentOf(At(tree, Agents));
      if text.None? { return Some(AgentsMissing); }
      var reconciled := Canonical(e, text.value);
      if reconciled.None? { return Some(BadMarker); }
      tree := tree[Agents := File(reconciled.value)];
      return None;
    }

    /** Checks what the tool left, reconciles, runs the bootstrap and checks again. */
    method Settle(e: Setting, ghost before: Tree, ghost c: Config, snapshot: map<Path, Print>, ignoredBefore: set<string>,
                  agentsBefore: Option<string>, bootstrapped: Tree) returns (r: Option<Refusal>)
      requires e.marker != [] && snapshot == Snapshot(e, before, c) && ignoredBefore == e.ignored(before)
      requires agentsBefore == ContentOf(At(before, Agents))
      modifies this
      ensures match Settled(e, before, c, old(tree), bootstrapped)
              case Ok(t) => r.None? && tree == t
              case Err(why) => r == Some(why)
    {
      if !Kept(snapshot, tree, map[]) { return Some(OwnedChanged); }
      if !(ignoredBefore <= e.ignored(tree)) { return Some(IgnoreLost); }
      r := Reconcile(e);
      if r.Some? { return; }
      if ContentOf(At(tree, BootstrapScript)).None? { return Some(NoBootstrap); }
      tree := bootstrapped;
      var permitted := Permitted(e, tree, agentsBefore);
      if permitted.Err? { return Some(permitted.error); }
      if !Kept(snapshot, tree, permitted.value) { return Some(OwnedChanged); }
      return None;
    }

    method Finish(e: Setting, before: Tree, c: Config, s: Sorting, x: External) returns (r: Result<Strategy, Refusal>)
      requires e.marker != []
      modifies this
      ensures match AfterRecopy(e, before, c, s, x)
              case Ok((strategy, t)) => r == Ok(strategy) && tree == t
              case Err(why) => r == Err(why)
    {
      tree := x.recopied;
      if Rejects(e, tree) != {} { return Err(StillRejected); }
      var stopped := Settle(e, before, c, Snapshot(e, before, c), e.ignored(before), ContentOf(At(before, Agents)), x.bootstrapped);
      if stopped.Some? { return Err(stopped.value); }
      r := Confirm(e, c, s);
    }

    method Confirm(e: Setting, c: Config, s: Sorting) returns (r: Result<Strategy, Refusal>)
      ensures match Confirmed(e, c, s, tree)
              case Ok((strategy, t)) => r == Ok(strategy) && tree == t
              case Err(why) => r == Err(why)
    {
      if exists p :: p in s.reclaimed && !MatchesTemplate(e, tree, p) { return Err(ReclaimedChanged); }
      if exists p :: p in s.baseline + s.target && At(tree, p) != At(e.newRender, p) { return Err(NotTarget); }
      var after := ConfigCheck(e, c, tree);
      if after.Err? { return Err(after.error); }
      if after.value.mode != c.mode { return Err(ModeChanged); }
      return Ok(Recopied);
    }

    /** The update, and the recopy when every conflict is recoverable. */
    method Update(e: Setting, x: External) returns (r: Result<Strategy, Refusal>)
      requires e.marker != []
      modifies this
      ensures match Rollout(e, old(tree), x)
              case Ok((strategy, t)) => r == Ok(strategy) && tree == t
              case Err(why) => r == Err(why)
    {
      var before := tree;
      var parsed := ConfigOf(e, before);
      if parsed.None? { return Err(ConfigUnreadable); }
      var c := parsed.value;
      var snapshot := Snapshot(e, before, c);
      tree := x.updated;
      if Rejects(e, tree) == {} {
        var stopped := Settle(e, before, c, snapshot, e.ignored(before), ContentOf(At(before, Agents)), x.bootstrapped);
        if stopped.Some? { return Err(stopped.value); }
        var after := ConfigCheck(e, c, tree);
        if after.Err? { return Err(after.error); }
        return Ok(Updated);
      }
      var now := ConfigOf(e, tree);
      if now.None? { return Err(ConfigUnreadable); }
      var s := Sorted(e, before, c, now.value, ConflictTargets(e, tree));
      if s.rest != {} { return Err(Unrecoverable(s.rest)); }
      tree := x.reset;
      if !Kept(snapshot, tree, map[]) { return Err(OwnedChanged); }
      if exists p :: p in s.reclaimed && !MatchesTemplate(e, tree, p) { return Err(ReclaimedChanged); }
      if BaselineProven(e, s.baseline) != s.baseline || TargetProven(e, s.target) != s.target { return Err(ProofChanged); }
      r := Finish(e, before, c, s, x);
    }
  }

  // ---- an edit lost

  function AlwaysOwned(): set<Path> {
    {".gitignore", Agents, "CLAUDE.md", "README.md", "dev-platform/checks.toml", "openspec/config.yaml",
     "docs/engineering/project-rules.md", "docs/context"}
  }

  const Edited: Path := "docs/design.md"

  /** A committed project with one file of its own in the place of a platform file. */
  function Project(): Tree {
    map[PlatformConfig := File("own"), Edited := File("mine"), BootstrapScript := File("boot")]
  }

  /** The configuration reads as given for its two contents: nothing required, or the edited file. */
  function Reading(text: string): Option<Config> {
    if text == "own" then Some(Harness({})) else if text == "own, required" then Some(Harness({Edited})) else None
  }

  function Harness(required: set<Path>): Config {
    Config(ProjectHarness, false, required, None, "")
  }

  function Demo(): Setting {
    Setting(Project(), map[], map[], map[], Reading, t => {}, s => false, {}, AlwaysOwned(), {"scripts/start_task.py"},
            {"scripts/project_publish.py"}, {}, false, "", "<", "")
  }

  /** The tool's update lists the file as required by the project, and rejects a hunk for it. */
  function DemoRun(): External {
    var updated := Project()[PlatformConfig := File("own, required")][Edited + ".rej" := File("hunk")];
    var recopied := Project()[Edited := File("theirs")];
    External(updated, Project(), recopied, recopied)
  }

  lemma {:induction false} Names()
    ensures Edited != PlatformConfig && Edited != BootstrapScript && PlatformConfig != BootstrapScript && Edited != Agents
    ensures Edited != ProductCi && Edited !in AlwaysOwned() && Edited != "scripts/start_task.py"
    ensures !IsReject(Edited) && !IsReject(PlatformConfig) && !IsReject(BootstrapScript) && IsReject(Edited + ".rej")
  {
  }

  lemma {:induction false} OneSlash(k: Path)
    requires k == PlatformConfig || k == Edited || k == BootstrapScript
    ensures forall i :: 0 <= i < |k| && k[i] == '/' ==> i == 4 || i == 7
  {
  }

  lemma {:induction false} OwnedLengths(q: Path)
    requires q in OwnedPaths(Demo(), Harness({}))
    ensures |q| != 4 && |q| != 7 && q != PlatformConfig && q != Edited && q != BootstrapScript
  {
  }

  /** Nothing that is owned before the update is there. */
  lemma {:induction false} NothingOwned()
    ensures Snapshot(Demo(), Project(), Harness({})) == map[] && At(Project(), Agents) == None
  {
    forall q | q in OwnedPaths(Demo(), Harness({})) ensures At(Project(), q) == None {
      OwnedLengths(q);
      forall k | k in Project() ensures !Below(k, q) { OneSlash(k); }
      assert Inside(Project(), q) == map[];
    }
    assert Agents in OwnedPaths(Demo(), Harness({}));
  }

  lemma {:induction false} DemoConfigs(x: External)
    requires x == DemoRun()
    ensures ConfigOf(Demo(), Project()) == Some(Harness({})) && ConfigOf(Demo(), x.updated) == Some(Harness({Edited}))
    ensures ConfigOf(Demo(), x.recopied) == Some(Harness({}))
  {
    Names();
    assert "own" != "own, required" by { assert |"own"| != |"own, required"|; }
    assert PlatformConfig != Edited + ".rej";
  }

  lemma {:induction false} DemoConflict(x: External)
    requires x == DemoRun()
    ensures Rejects(Demo(), x.updated) == {Edited + ".rej"} && ConflictTargets(Demo(), x.updated) == {Edited}
    ensures Rejects(Demo(), x.recopied) == {}
  {
    Names();
    var r := Edited + ".rej";
    assert r[..|r| - 4] == Edited;
    assert forall k :: k in x.updated ==> k == PlatformConfig || k == Edited || k == BootstrapScript || k == r;
    assert r in x.updated && Rejects(Demo(), x.updated) == {r};
    assert forall k :: k in x.recopied ==> k == PlatformConfig || k == Edited || k == BootstrapScript;
  }

  lemma {:induction false} DemoSorted(s: Sorting)
    requires s == Sorted(Demo(), Project(), Harness({}), Harness({Edited}), {Edited})
    ensures s.rest == {} && s.reclaimed == {} && s.baseline == {} && s.target == {}
  {
    assert Edited != "scripts/project_publish.py";
  }

  lemma {:induction false} DemoSettled(x: External)
    requires x == DemoRun()
    ensures Settled(Demo(), Project(), Harness({}), x.recopied, x.bootstrapped) == Ok(x.bootstrapped)
  {
    NothingOwned();
    DemoConfigs(x);
    Names();
    assert At(x.recopied, BootstrapScript) == Some(File("boot"));
  }

  lemma {:induction false} DemoFinishes(x: External)
    requires x == DemoRun()
    ensures Finished(Demo(), Project(), x, Recopied)
  {
    DemoConfigs(x);
    DemoConflict(x);
    NothingOwned();
    var s := Sorted(Demo(), Project(), Harness({}), Harness({Edited}), {Edited});
    DemoSorted(s);
    DemoRecopied(x, s);
    NothingToProve(Demo(), Project(), Harness({}), s, x);
    Recopies(Demo(), Project(), Harness({}), Harness({Edited}), x);
  }

  lemma {:induction false} NothingToProve(e: Setting, before: Tree, c: Config, s: Sorting, x: External)
    requires e.marker != [] && s.rest == {} && s.reclaimed == {} && s.baseline == {} && s.target == {} && Snapshot(e, before, c) == map[]
    ensures AfterRejects(e, before, c, s, x) == AfterRecopy(e, before, c, s, x)
  {
    assert BaselineProven(e, {}) == {} && TargetProven(e, {}) == {};
  }

  lemma {:induction false} Recopies(e: Setting, before: Tree, c: Config, now: Config, x: External)
    requires e.marker != [] && ConfigOf(e, before) == Some(c) && ConfigOf(e, x.updated) == Some(now) && Rejects(e, x.updated) != {}
    ensures Rollout(e, before, x) == AfterRejects(e, before, c, Sorted(e, before, c, now, ConflictTargets(e, x.updated)), x)
  {
  }

  lemma {:induction false} DemoRecopied(x: External, s: Sorting)
    requires x == DemoRun() && s.reclaimed == {} && s.baseline == {} && s.target == {}
    ensures AfterRecopy(Demo(), Project(), Harness({}), s, x) == Ok((Recopied, x.bootstrapped))
  {
    DemoConfigs(x);
    DemoConflict(x);
    DemoSettled(x);
  }

  lemma {:induction false} DemoClean()
    ensures Clean(Demo(), Project())
  {
    forall p, q | p in Project() && q in Project() ensures !Below(p, q) {
      OneSlash(p);
      Names();
    }
    Names();
  }

  /** The sorting of conflicts reads the ownership keys after the failed update: a file listed only there counts as
      recoverable, is not in the snapshot, and the recopy may overwrite the committed edit. */
  lemma {:induction false} EditLost(x: External)
    requires x == DemoRun()
    ensures Clean(Demo(), Project()) && Finished(Demo(), Project(), x, Recopied)
    ensures CommittedFile(Demo(), Edited) && Edited in ConflictTargets(Demo(), x.updated)
    ensures At(x.bootstrapped, Edited) == Some(File("theirs")) && !Preserved(Demo(), Project(), x.bootstrapped, Edited)
  {
    DemoClean();
    DemoFinishes(x);
    DemoConflict(x);
    Names();
    NothingOwned();
  }
}
