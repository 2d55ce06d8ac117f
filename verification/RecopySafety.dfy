/** What a finished rollout never loses, whatever the external tool and the bootstrap wrote. */
module RecopySafety {
  import opened Results
  import opened RecopyModel

  /** The checkout is clean: what is committed as a file or link stands in the working tree, and no file is a folder. */
  ghost predicate Clean(e: Setting, before: Tree) {
    && (forall p :: p in e.head && CommittedFile(e, p) ==> At(before, p) == Some(e.head[p]))
    && forall p, q :: p in before && q in before ==> !Below(p, q)
  }

  predicate CommittedFile(e: Setting, p: Path) {
    p in e.head && (e.head[p].File? || e.head[p].Link?)
  }

  /** The canonical text of the AGENTS.md there was. */
  function CanonicalAgents(e: Setting, before: Tree): Option<Print>
    requires e.marker != []
  {
    match ContentOf(At(before, Agents))
    case None => None
    case Some(text) => match Canonical(e, text) case None => None case Some(c) => Some(File(c))
  }

  /** An owned path is as it was, or is AGENTS.md in its canonical form. */
  ghost predicate OwnedSafe(e: Setting, before: Tree, final: Tree, p: Path)
    requires e.marker != []
  {
    At(final, p) == At(before, p) || (p == Agents && CanonicalAgents(e, before).Some? && At(final, p) == CanonicalAgents(e, before))
  }

  lemma {:induction false} PermittedIsCanonical(e: Setting, before: Tree, t: Tree)
    requires e.marker != []
    ensures var r := Permitted(e, t, ContentOf(At(before, Agents)));
            r.Ok? ==> forall p :: p in r.value ==> p == Agents && Some(r.value[p]) == CanonicalAgents(e, before)
  {
  }

  lemma {:induction false} SettledKeepsOwned(e: Setting, before: Tree, c: Config, t: Tree, bootstrapped: Tree)
    requires e.marker != [] && Settled(e, before, c, t, bootstrapped).Ok?
    ensures Settled(e, before, c, t, bootstrapped).value == bootstrapped
    ensures forall p :: p in OwnedPaths(e, c) && At(before, p).Some? ==> OwnedSafe(e, before, bootstrapped, p)
  {
    PermittedIsCanonical(e, before, bootstrapped);
    forall p | p in OwnedPaths(e, c) && At(before, p).Some? ensures OwnedSafe(e, before, bootstrapped, p) {
      assert p in Snapshot(e, before, c);
    }
  }

  /** A folder with the same print has the same files below it. */
  lemma {:induction false} SameBelow(t: Tree, t': Tree, p: Path, q: Path)
    requires p in t && Below(p, q) && q !in t && At(t', q) == At(t, q)
    ensures At(t', p) == At(t, p)
  {
    assert p in Inside(t, q);
    assert q !in t' && Inside(t', q) == Inside(t, q);
    assert p in Inside(t', q) && t'[p] == t[p];
  }

  ghost predicate Finished(e: Setting, before: Tree, x: External, strategy: Strategy)
    requires e.marker != []
  {
    Rollout(e, before, x) == Ok((strategy, x.bootstrapped))
  }

  lemma {:induction false} AfterUpdateSettles(e: Setting, before: Tree, c: Config, x: External)
    requires e.marker != [] && AfterUpdate(e, before, c, x).Ok?
    ensures Settled(e, before, c, x.updated, x.bootstrapped).Ok? && AfterUpdate(e, before, c, x).value == (Updated, x.bootstrapped)
    ensures ConfigCheck(e, c, x.bootstrapped).Ok?
  {
    SettledKeepsOwned(e, before, c, x.updated, x.bootstrapped);
  }

  lemma {:induction false} AfterRecopySettles(e: Setting, before: Tree, c: Config, s: Sorting, x: External)
    requires e.marker != [] && AfterRecopy(e, before, c, s, x).Ok?
    ensures Settled(e, before, c, x.recopied, x.bootstrapped).Ok?
    ensures AfterRecopy(e, before, c, s, x).value == (Recopied, x.bootstrapped)
    ensures ConfigCheck(e, c, x.bootstrapped).Ok?
    ensures forall p :: p in s.reclaimed ==> MatchesTemplate(e, x.bootstrapped, p)
    ensures forall p :: p in s.baseline + s.target ==> At(x.bootstrapped, p) == At(e.newRender, p)
  {
    SettledKeepsOwned(e, before, c, x.recopied, x.bootstrapped);
  }

  lemma {:induction false} AfterRejectsRecopies(e: Setting, before: Tree, c: Config, s: Sorting, x: External)
    requires e.marker != [] && AfterRejects(e, before, c, s, x).Ok?
    ensures s.rest == {} && AfterRecopy(e, before, c, s, x) == AfterRejects(e, before, c, s, x)
  {
  }

  /** Everything but what the bootstrap wrote decides alike. */
  lemma {:induction false} AfterRejectsStill(e: Setting, before: Tree, c: Config, s: Sorting, x: External, b': Tree)
    requires e.marker != [] && AfterRejects(e, before, c, s, x).Ok?
    ensures AfterRejects(e, before, c, s, x.(bootstrapped := b')) == AfterRecopy(e, before, c, s, x.(bootstrapped := b'))
  {
  }

  lemma {:induction false} FinishedIsBootstrapped(e: Setting, before: Tree, x: External)
    requires e.marker != [] && Rollout(e, before, x).Ok?
    ensures Rollout(e, before, x).value.1 == x.bootstrapped && ConfigOf(e, before).Some?
    ensures var c := ConfigOf(e, before).value;
            && ConfigCheck(e, c, x.bootstrapped).Ok?
            && (Settled(e, before, c, x.updated, x.bootstrapped).Ok? || Settled(e, before, c, x.recopied, x.bootstrapped).Ok?)
  {
    var c := ConfigOf(e, before).value;
    if Rejects(e, x.updated) == {} {
      AfterUpdateSettles(e, before, c, x);
    } else {
      var s := Sorted(e, before, c, ConfigOf(e, x.updated).value, ConflictTargets(e, x.updated));
      AfterRejectsRecopies(e, before, c, s, x);
      AfterRecopySettles(e, before, c, s, x);
    }
  }

  /** Every project-owned path that was there, and every file below one, is untouched by a finished rollout, but for the
      canonical AGENTS.md; and the configuration says what it said. */
  lemma {:induction false} OwnedSurvives(e: Setting, before: Tree, x: External, strategy: Strategy)
    requires e.marker != [] && Finished(e, before, x, strategy)
    ensures ConfigOf(e, before).Some? && ConfigOf(e, x.bootstrapped).Some?
    ensures var c := ConfigOf(e, before).value;
            && ContractKept(e, c, ConfigOf(e, x.bootstrapped).value)
            && (forall p :: p in OwnedPaths(e, c) && At(before, p).Some? ==> OwnedSafe(e, before, x.bootstrapped, p))
            && forall p, q :: p in before && Below(p, q) && q in OwnedPaths(e, c) && q !in before ==> At(x.bootstrapped, p) == At(before, p)
  {
    FinishedIsBootstrapped(e, before, x);
    var c := ConfigOf(e, before).value;
    if Settled(e, before, c, x.updated, x.bootstrapped).Ok? { SettledKeepsOwned(e, before, c, x.updated, x.bootstrapped); }
    else { SettledKeepsOwned(e, before, c, x.recopied, x.bootstrapped); }
    forall p, q | p in before && Below(p, q) && q in OwnedPaths(e, c) && q !in before ensures At(x.bootstrapped, p) == At(before, p) {
      OwnedFolder(e, before, x.bootstrapped, p, q);
    }
  }

  lemma {:induction false} OwnedFolder(e: Setting, before: Tree, final: Tree, p: Path, q: Path)
    requires e.marker != [] && p in before && Below(p, q) && q !in before
    requires At(before, q).Some? ==> OwnedSafe(e, before, final, q)
    ensures At(final, p) == At(before, p)
  {
    assert p in Inside(before, q);
    SameBelow(before, final, p, q);
  }

  // ---- conflicting paths

  /** A conflicting path ends as committed, or was the recorded old render and ends as the target render. */
  ghost predicate Preserved(e: Setting, before: Tree, final: Tree, p: Path)
    requires e.marker != []
  {
    || At(final, p) == At(e.head, p)
    || (NormalPrint(e, p, At(e.head, p)) == NormalPrint(e, p, At(e.oldRender, p)) && At(final, p) == At(e.newRender, p))
    || (p == Agents && At(final, p) == CanonicalAgents(e, before))
  }

  /** A path that the checks look at: an owned one, or one below an owned folder or a conflicting reclaimed one. */
  ghost predicate Watched(e: Setting, before: Tree, c: Config, conflicts: set<Path>, p: Path) {
    || p in OwnedPaths(e, c)
    || exists q :: Below(p, q) && (q in OwnedPaths(e, c) || (q in conflicts && MatchesTemplate(e, before, q)))
  }

  /** The failed update did not make a conflicting path project-owned that the checks do not look at: the ownership keys
      that the sorting of conflicts reads, after the update, agree with those read before it. */
  ghost predicate OwnershipHeld(e: Setting, before: Tree, updated: Tree)
    requires ConfigOf(e, before).Some? && ConfigOf(e, updated).Some?
  {
    var c, now, conflicts := ConfigOf(e, before).value, ConfigOf(e, updated).value, ConflictTargets(e, updated);
    c.mode.ProjectHarness? ==>
      forall p :: (p in conflicts && p != PlatformConfig && CommittedFile(e, p)
                   && p in OwnedPaths(e, now) && !MatchesTemplate(e, before, p)) ==> Watched(e, before, c, conflicts, p)
  }

  ghost predicate AllPreserved(e: Setting, before: Tree, updated: Tree, final: Tree)
    requires e.marker != []
  {
    forall p :: p in ConflictTargets(e, updated) && p != PlatformConfig && CommittedFile(e, p) ==> Preserved(e, before, final, p)
  }

  /** What a finished recopy has checked. */
  lemma {:induction false} RecopyChecked(e: Setting, before: Tree, x: External)
    requires e.marker != [] && Finished(e, before, x, Recopied)
    ensures ConfigOf(e, before).Some? && ConfigOf(e, x.updated).Some? && ConfigOf(e, x.bootstrapped).Some?
    ensures var c, now := ConfigOf(e, before).value, ConfigOf(e, x.updated).value;
            var s := Sorted(e, before, c, now, ConflictTargets(e, x.updated));
            && s.rest == {} && AfterRecopy(e, before, c, s, x) == Ok((Recopied, x.bootstrapped))
            && AfterRejects(e, before, c, s, x).Ok? && Rejects(e, x.updated) != {}
            && Settled(e, before, c, x.recopied, x.bootstrapped).Ok?
            && (forall p :: p in s.reclaimed ==> MatchesTemplate(e, x.bootstrapped, p))
            && (forall p :: p in s.baseline + s.target ==> At(x.bootstrapped, p) == At(e.newRender, p))
  {
    var c, now := ConfigOf(e, before).value, ConfigOf(e, x.updated).value;
    var s := Sorted(e, before, c, now, ConflictTargets(e, x.updated));
    if Rejects(e, x.updated) == {} {
      AfterUpdateSettles(e, before, c, x);
    } else {
      AfterRejectsRecopies(e, before, c, s, x);
      AfterRecopySettles(e, before, c, s, x);
    }
  }

  lemma {:induction false} ConflictPreserved(e: Setting, before: Tree, x: External, p: Path)
    requires e.marker != [] && Clean(e, before) && Finished(e, before, x, Recopied)
    requires ConfigOf(e, before).Some? && ConfigOf(e, x.updated).Some?
    requires OwnershipHeld(e, before, x.updated)
    requires p in ConflictTargets(e, x.updated) && p != PlatformConfig && CommittedFile(e, p)
    ensures Preserved(e, before, x.bootstrapped, p)
  {
    RecopyChecked(e, before, x);
    var c, now := ConfigOf(e, before).value, ConfigOf(e, x.updated).value;
    var s := Sorted(e, before, c, now, ConflictTargets(e, x.updated));
    SettledKeepsOwned(e, before, c, x.recopied, x.bootstrapped);
    assert p !in s.rest;
    if p in s.reclaimed {
      assert MatchesTemplate(e, before, p) && MatchesTemplate(e, x.bootstrapped, p);
    } else if p in s.baseline || p in s.target {
      assert At(x.bootstrapped, p) == At(e.newRender, p);
    } else {
      assert p in s.owned && Watched(e, before, c, ConflictTargets(e, x.updated), p);
      WatchedPreserved(e, before, x.bootstrapped, c, ConflictTargets(e, x.updated), p);
    }
  }

  lemma {:induction false} WatchedPreserved(e: Setting, before: Tree, final: Tree, c: Config, conflicts: set<Path>, p: Path)
    requires e.marker != [] && Clean(e, before) && CommittedFile(e, p) && Watched(e, before, c, conflicts, p)
    requires forall q :: q in OwnedPaths(e, c) && At(before, q).Some? ==> OwnedSafe(e, before, final, q)
    requires forall q :: q in conflicts && MatchesTemplate(e, before, q) ==> MatchesTemplate(e, final, q)
    ensures Preserved(e, before, final, p)
  {
    assert p in before && At(before, p) == At(e.head, p);
    if p in OwnedPaths(e, c) {
      assert OwnedSafe(e, before, final, p);
    } else {
      var q :| Below(p, q) && (q in OwnedPaths(e, c) || (q in conflicts && MatchesTemplate(e, before, q)));
      assert q !in before;
      if q in OwnedPaths(e, c) { OwnedFolder(e, before, final, p, q); } else { SameBelow(before, final, p, q); }
    }
  }

  // ---- exactly when nothing is lost

  function Longer(a: string, b: string): (s: string)
    ensures s != a && s != b
  {
    var s := a + b + ['x'];
    assert |s| > |a| && |s| > |b|;
    s
  }

  function OtherThan(x: Option<Print>, y: Option<Print>): (z: Print)
    ensures x != Some(z) && y != Some(z)
  {
    File(Longer(if x.Some? && x.value.File? then x.value.content else [], if y.Some? && y.value.File? then y.value.content else []))
  }

  /** Overwriting a file changes the prints of no other path, but for the folders it lies in. */
  lemma {:induction false} OverwriteShows(t: Tree, p: Path, z: Print, q: Path)
    requires q != p && (!Below(p, q) || q in t)
    ensures At(t[p := z], q) == At(t, q)
  {
    assert !Below(p, q) ==> Inside(t[p := z], q) == Inside(t, q);
  }

  /** A bootstrap that also overwrites a path that no check looks at passes all the same. */
  lemma {:induction false} OverwritePasses(e: Setting, before: Tree, x: External, p: Path, z: Print)
    requires e.marker != [] && Clean(e, before) && Finished(e, before, x, Recopied) && p in before && p != PlatformConfig
    requires ConfigOf(e, before).Some? && ConfigOf(e, before).value.mode.ProjectHarness?
    requires !Watched(e, before, ConfigOf(e, before).value, ConflictTargets(e, x.updated), p) && !MatchesTemplate(e, before, p)
    ensures Finished(e, before, x.(bootstrapped := x.bootstrapped[p := z]), Recopied)
  {
    RecopyChecked(e, before, x);
    var c, now, conflicts := ConfigOf(e, before).value, ConfigOf(e, x.updated).value, ConflictTargets(e, x.updated);
    var s := Sorted(e, before, c, now, conflicts);
    var b, b' := x.bootstrapped, x.bootstrapped[p := z];
    FinishedIsBootstrapped(e, before, x);
    ConfigShows(e, before, b, p, z);
    OwnedStill(e, before, c, conflicts, x.recopied, b, p, z);
    SettledStill(e, before, c, x.recopied, b, b');
    ReclaimedStill(e, before, c, conflicts, s.reclaimed, b, p, z);
    AfterStill(e, before, c, s, x, b');
    AfterRejectsStill(e, before, c, s, x, b');
    RolloutStill(e, before, x, b');
  }

  lemma {:induction false} RolloutStill(e: Setting, before: Tree, x: External, b': Tree)
    requires e.marker != [] && ConfigOf(e, before).Some? && ConfigOf(e, x.updated).Some? && Rejects(e, x.updated) != {}
    ensures var c, now := ConfigOf(e, before).value, ConfigOf(e, x.updated).value;
            Rollout(e, before, x.(bootstrapped := b')) ==
            AfterRejects(e, before, c, Sorted(e, before, c, now, ConflictTargets(e, x.updated)), x.(bootstrapped := b'))
  {
  }

  lemma {:induction false} ReclaimedStill(e: Setting, before: Tree, c: Config, conflicts: set<Path>, reclaimed: set<Path>,
                                          b: Tree, p: Path, z: Print)
    requires !Watched(e, before, c, conflicts, p) && !MatchesTemplate(e, before, p)
    requires forall q :: q in reclaimed ==> q in conflicts && MatchesTemplate(e, before, q) && MatchesTemplate(e, b, q)
    ensures forall q :: q in reclaimed ==> MatchesTemplate(e, b[p := z], q)
  {
    forall q | q in reclaimed ensures MatchesTemplate(e, b[p := z], q) { OverwriteShows(b, p, z, q); }
  }

  lemma {:induction false} ConfigShows(e: Setting, before: Tree, b: Tree, p: Path, z: Print)
    requires Clean(e, before) && p in before && p != PlatformConfig && ConfigOf(e, before).Some? && ConfigOf(e, b).Some?
    ensures ConfigOf(e, b[p := z]) == ConfigOf(e, b)
  {
    assert PlatformConfig in b;
    OverwriteShows(b, p, z, PlatformConfig);
  }

  lemma {:induction false} OwnedStill(e: Setting, before: Tree, c: Config, conflicts: set<Path>, t: Tree, b: Tree, p: Path, z: Print)
    requires e.marker != [] && !Watched(e, before, c, conflicts, p) && Settled(e, before, c, t, b).Ok?
    ensures Kept(Snapshot(e, before, c), b[p := z], Permitted(e, b, ContentOf(At(before, Agents))).value)
  {
    var permitted := Permitted(e, b, ContentOf(At(before, Agents))).value;
    assert Kept(Snapshot(e, before, c), b, permitted);
    forall q | q in Snapshot(e, before, c) ensures At(b[p := z], q) == At(b, q) { OverwriteShows(b, p, z, q); }
  }

  lemma {:induction false} SettledStill(e: Setting, before: Tree, c: Config, t: Tree, b: Tree, b': Tree)
    requires e.marker != [] && Settled(e, before, c, t, b).Ok? && ConfigOf(e, b') == ConfigOf(e, b)
    requires Permitted(e, b, ContentOf(At(before, Agents))).Ok?
    requires Kept(Snapshot(e, before, c), b', Permitted(e, b, ContentOf(At(before, Agents))).value)
    ensures Settled(e, before, c, t, b') == Ok(b')
  {
    assert Permitted(e, b', ContentOf(At(before, Agents))) == Permitted(e, b, ContentOf(At(before, Agents)));
  }

  lemma {:induction false} AfterStill(e: Setting, before: Tree, c: Config, s: Sorting, x: External, b': Tree)
    requires e.marker != [] && AfterRecopy(e, before, c, s, x) == Ok((Recopied, x.bootstrapped))
    requires Settled(e, before, c, x.recopied, x.bootstrapped).Ok? && Settled(e, before, c, x.recopied, b') == Ok(b')
    requires ConfigOf(e, b') == ConfigOf(e, x.bootstrapped) && s.baseline + s.target == {}
    requires forall p :: p in s.reclaimed ==> MatchesTemplate(e, b', p)
    ensures AfterRecopy(e, before, c, s, x.(bootstrapped := b')) == Ok((Recopied, b'))
  {
    SettledKeepsOwned(e, before, c, x.recopied, x.bootstrapped);
  }

  /** For every rollout that ends in a recopy: no bootstrap can lose a committed edit of a conflicting path if and only
      if every conflicting path that the failed update made project-owned was under the eye of the checks anyway. */
  lemma {:induction false} NothingLostIff(e: Setting, before: Tree, x: External)
    requires e.marker != [] && Clean(e, before) && Agents in e.alwaysOwned && Finished(e, before, x, Recopied)
    ensures ConfigOf(e, before).Some? && ConfigOf(e, x.updated).Some?
    ensures OwnershipHeld(e, before, x.updated)
       <==> forall b :: Finished(e, before, x.(bootstrapped := b), Recopied) ==> AllPreserved(e, before, x.updated, b)
  {
    RecopyChecked(e, before, x);
    if OwnershipHeld(e, before, x.updated) {
      forall b | Finished(e, before, x.(bootstrapped := b), Recopied) ensures AllPreserved(e, before, x.updated, b) {
        forall p | p in ConflictTargets(e, x.updated) && p != PlatformConfig && CommittedFile(e, p)
          ensures Preserved(e, before, b, p)
        {
          ConflictPreserved(e, before, x.(bootstrapped := b), p);
        }
      }
    } else {
      var p, z := LossPossible(e, before, x);
    }
  }

  /** When it made another one project-owned, a bootstrap that differs in that file alone passes all checks and loses
      the edit. */
  lemma {:induction false} LossPossible(e: Setting, before: Tree, x: External) returns (p: Path, z: Print)
    requires e.marker != [] && Clean(e, before) && Agents in e.alwaysOwned && Finished(e, before, x, Recopied)
    requires ConfigOf(e, before).Some? && ConfigOf(e, x.updated).Some?
    requires !OwnershipHeld(e, before, x.updated)
    ensures p in ConflictTargets(e, x.updated) && p != PlatformConfig && CommittedFile(e, p) && z.File?
    ensures var b := x.bootstrapped[p := z];
            && Finished(e, before, x.(bootstrapped := b), Recopied)
            && !Preserved(e, before, b, p) && !AllPreserved(e, before, x.updated, b)
  {
    var c, now, conflicts := ConfigOf(e, before).value, ConfigOf(e, x.updated).value, ConflictTargets(e, x.updated);
    p :| p in conflicts && p != PlatformConfig && CommittedFile(e, p) && p in OwnedPaths(e, now)
         && !MatchesTemplate(e, before, p) && !Watched(e, before, c, conflicts, p);
    z := OtherThan(At(e.head, p), At(e.newRender, p));
    OverwritePasses(e, before, x, p, z);
    assert At(x.bootstrapped[p := z], p) == Some(z);
  }
}
