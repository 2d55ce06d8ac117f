/** Safety of the scope board over whole runs: who may hold the same file, and what the gate lets through. */
module ScopeExclusion {
  import opened Results
  import opened Ordering
  import opened CommitGraph
  import opened ScopeBoard

  // ---- the conflict scan finds a conflict exactly when there is one

  /** A rival leaves nothing to wait for. */
  ghost predicate NoConflictWith(current: Item, other: Item, rival: Rival, claims: set<Path>) {
    match rival
    case Ignored => true
    case Unreadable => false
    case Owner(paths) => forall p :: p in claims * paths ==> Acknowledged(current, other.id, p)
  }

  lemma {:induction false} ScanPathsGrows(current: Item, other: Item, paths: seq<Path>, found: seq<Conflict>)
    ensures found <= ScanPaths(current, other, paths, found)
    decreases |paths|
  {
    if paths != [] && |found| < MAX_ADMISSION_DIAGNOSTICS {
      var next := if Acknowledged(current, other.id, paths[0]) then found
                  else Report(found, Conflict(other.id, other.task, paths[0]));
      ScanPathsGrows(current, other, paths[1..], next);
    }
  }

  lemma {:induction false} ScanPathsEmptyIff(current: Item, other: Item, paths: seq<Path>)
    ensures ScanPaths(current, other, paths, []) == [] <==> forall p :: p in paths ==> Acknowledged(current, other.id, p)
    decreases |paths|
  {
    if paths != [] {
      if Acknowledged(current, other.id, paths[0]) {
        ScanPathsEmptyIff(current, other, paths[1..]);
        assert paths == [paths[0]] + paths[1..];
      } else {
        var c := Conflict(other.id, other.task, paths[0]);
        assert Report([], c) == [c];
        ScanPathsGrows(current, other, paths[1..], [c]);
        assert paths[0] in paths;
      }
    }
  }

  lemma {:induction false} ScanItemsGrows(current: Item, items: seq<Item>, rivals: seq<Rival>, claims: set<Path>, j: nat, found: seq<Conflict>)
    requires |rivals| == |items| && j <= |items| && found != []
    ensures ScanItems(current, items, rivals, claims, j, found) != Ok([])
    decreases |items| - j
  {
    if j < |items| && |found| < MAX_ADMISSION_DIAGNOSTICS {
      match rivals[j]
      case Ignored => ScanItemsGrows(current, items, rivals, claims, j + 1, found);
      case Unreadable =>
      case Owner(paths) =>
        ScanPathsGrows(current, items[j], Sorted(claims * paths), found);
        ScanItemsGrows(current, items, rivals, claims, j + 1, ScanPaths(current, items[j], Sorted(claims * paths), found));
    }
  }

  lemma {:induction false} ScanItemsEmptyIff(current: Item, items: seq<Item>, rivals: seq<Rival>, claims: set<Path>, j: nat)
    requires |rivals| == |items| && j <= |items|
    ensures ScanItems(current, items, rivals, claims, j, []) == Ok([]) <==>
            forall k :: j <= k < |items| ==> NoConflictWith(current, items[k], rivals[k], claims)
    decreases |items| - j
  {
    if j < |items| {
      if rivals[j].Owner? {
        var paths := Sorted(claims * rivals[j].paths);
        ScanPathsEmptyIff(current, items[j], paths);
        assert NoConflictWith(current, items[j], rivals[j], claims) <==> ScanPaths(current, items[j], paths, []) == [];
        if ScanPaths(current, items[j], paths, []) != [] {
          ScanItemsGrows(current, items, rivals, claims, j + 1, ScanPaths(current, items[j], paths, []));
        }
      }
      ScanItemsEmptyIff(current, items, rivals, claims, j + 1);
    }
  }

  /** The cut-off at five diagnostics never hides that a conflict exists: the answer is empty exactly when
      every active entry elsewhere is readable and owns nothing of ours beyond what is generated or acknowledged. */
  lemma ConflictsEmptyIff(w: World, items: seq<Item>, i: nat)
    requires i < |items|
    ensures Conflicts(w, items, i) == Ok([]) <==>
            && Candidates(w, items[i]).Some?
            && (Candidates(w, items[i]).value != {} ==>
                  && w.generated.Some?
                  && forall j :: 0 <= j < |items| && j != i ==>
                       NoConflictWith(items[i], items[j], RivalOf(w, items[i], items[j]),
                                      Candidates(w, items[i]).value - w.generated.value))
  {
    if Candidates(w, items[i]).Some? && w.generated.Some? {
      ScanItemsEmptyIff(items[i], items, Rivals(w, items, i), Candidates(w, items[i]).value - w.generated.value, 0);
    }
  }

  // ---- exclusion

  ghost predicate Exempt(a: Item, b: Item, p: Path, generated: set<Path>) {
    p in generated || Acknowledged(a, b.id, p) || Acknowledged(b, a.id, p)
  }

  ghost predicate Apart(a: Item, b: Item, generated: set<Path>) {
    forall p :: p in a.claims && p in b.claims ==> Exempt(a, b, p, generated)
  }

  /** No two entries among `who` hold the same file, unless it is generated or one of them acknowledged exactly that pair. */
  ghost predicate Exclusive(items: seq<Item>, generated: set<Path>, who: iset<string>) {
    forall i, j :: 0 <= i < j < |items| && items[i].id in who && items[j].id in who ==> Apart(items[i], items[j], generated)
  }

  /** No two entries share a worktree or a branch. */
  ghost predicate Places(items: seq<Item>) {
    forall i, j :: 0 <= i < j < |items| ==> items[i].worktree != items[j].worktree && items[i].branch != items[j].branch
  }

  /** The entry an admission grants RUN to, if it does. */
  ghost function Granted(w: World, c: Command, items: seq<Item>): Option<nat> {
    if c.Admit? && ValidIdentity(w, c.worktree, c.branch) && Find(items, c.worktree, c.branch).Some? then
      var i := Find(items, c.worktree, c.branch).value;
      if Conflicts(w, items[i := Touched(w, items[i], c.newScope)], i) == Ok([]) then Some(i) else None
    else None
  }

  /** What an admission asks for overlaps no stored claim of an entry that is not provably active. */
  ghost predicate SafeAdmission(w: World, c: Command, items: seq<Item>, generated: set<Path>, who: iset<string>) {
    var g := Granted(w, c, items);
    g.Some? && items[g.value].id in who ==>
      forall j, p :: 0 <= j < |items| && j != g.value && items[j].id in who && !Active(w, items[j])
                     && p in items[j].claims && p in AskedClaims(w, c, items)
                     ==> Exempt(items[g.value], items[j], p, generated)
  }

  ghost function AskedClaims(w: World, c: Command, items: seq<Item>): set<Path>
    requires Granted(w, c, items).Some?
  {
    var i := Granted(w, c, items).value;
    Candidates(w, Touched(w, items[i], c.newScope)).value
  }

  lemma {:induction false} KeepMembers(items: seq<Item>, dropped: set<string>)
    ensures forall e :: e in Keep(items, dropped) <==> e in items && e.id !in dropped
  {
    if items != [] {
      KeepMembers(items[1..], dropped);
      assert items == [items[0]] + items[1..];
    }
  }

  lemma {:induction false} KeepPlaces(items: seq<Item>, dropped: set<string>)
    requires Places(items)
    ensures Places(Keep(items, dropped))
  {
    if items != [] {
      var rest := Keep(items[1..], dropped);
      KeepPlaces(items[1..], dropped);
      KeepMembers(items[1..], dropped);
      if items[0].id !in dropped {
        forall j | 0 <= j < |rest|
          ensures items[0].worktree != rest[j].worktree && items[0].branch != rest[j].branch
        {
          assert rest[j] in items[1..];
        }
      }
    }
  }

  lemma KeepExclusive(items: seq<Item>, dropped: set<string>, generated: set<Path>, who: iset<string>)
    requires Places(items) && Exclusive(items, generated, who)
    ensures Exclusive(Keep(items, dropped), generated, who)
  {
    var kept := Keep(items, dropped);
    KeepPlaces(items, dropped);
    KeepMembers(items, dropped);
    forall i, j | 0 <= i < j < |kept| && kept[i].id in who && kept[j].id in who ensures Apart(kept[i], kept[j], generated) {
      assert kept[i] in kept && kept[j] in kept;
      var a, b :| 0 <= a < |items| && 0 <= b < |items| && items[a] == kept[i] && items[b] == kept[j];
      assert a != b;
      assert Apart(items[if a < b then a else b], items[if a < b then b else a], generated);
    }
  }

  /** Every command keeps worktrees and branches distinct. */
  lemma PlacesKept(w: World, c: Command, items: seq<Item>)
    requires Places(items)
    ensures Places(After(w, c, items))
  {
    match c
    case Finish(id) => KeepPlaces(items, {id});
    case DoctorFix(h) => KeepPlaces(items, Removable(w, items, h));
    case _ =>
  }

  /** An entry replaced by one with the same id and claims and no fewer acknowledgments keeps exclusion. */
  lemma ReplaceKeeps(items: seq<Item>, i: nat, e: Item, generated: set<Path>, who: iset<string>)
    requires i < |items| && Exclusive(items, generated, who)
    requires e.id == items[i].id && e.claims == items[i].claims && items[i].acks <= e.acks
    ensures Exclusive(items[i := e], generated, who)
  {
    forall id, p | Acknowledged(items[i], id, p) ensures Acknowledged(e, id, p) {
      var k :| 0 <= k < |items[i].acks| && items[i].acks[k].withId == id && p in items[i].acks[k].paths;
      assert e.acks[k] == items[i].acks[k];
    }
    var after := items[i := e];
    forall a, b | 0 <= a < b < |items| && after[a].id in who && after[b].id in who ensures Apart(after[a], after[b], generated) {
      assert Apart(items[a], items[b], generated);
    }
  }

  /** Only a granted admission can break exclusion; every other command keeps it. */
  lemma OthersKeepExclusive(w: World, c: Command, items: seq<Item>, generated: set<Path>, who: iset<string>)
    requires Places(items) && Exclusive(items, generated, who) && Granted(w, c, items).None?
    ensures Exclusive(After(w, c, items), generated, who)
  {
    var after := After(w, c, items);
    if Apply(w, c, items).Ok? {
      match c
      case Start(_, _, _, _, _, _) =>
        forall i, j | 0 <= i < j < |after| && after[i].id in who && after[j].id in who ensures Apart(after[i], after[j], generated) {
          if j < |items| { assert Apart(items[i], items[j], generated); }
        }
      case Update(id, _, _) =>
        var i := FindId(items, id, -1).value;
        ReplaceKeeps(items, i, after[i], generated, who);
      case Admit(worktree, branch, _) =>
        var i := Find(items, worktree, branch).value;
        ReplaceKeeps(items, i, after[i], generated, who);
        assert after == items[i := after[i]];
      case Acknowledge(worktree, branch, _, _, _) =>
        var i := Find(items, worktree, branch).value;
        ReplaceKeeps(items, i, after[i], generated, who);
      case Finish(id) => KeepExclusive(items, {id}, generated, who);
      case DoctorFix(h) => KeepExclusive(items, Removable(w, items, h), generated, who);
    }
  }

  /** A granted admission never takes a file from a provably active entry. */
  lemma GrantSparesActive(w: World, c: Command, items: seq<Item>, j: nat, p: Path)
    requires Places(items) && Granted(w, c, items).Some? && j < |items| && j != Granted(w, c, items).value
    requires Active(w, items[j]) && p in AskedClaims(w, c, items) && p in items[j].claims
    ensures w.generated.Some?
    ensures p in w.generated.value || Acknowledged(items[Granted(w, c, items).value], items[j].id, p)
  {
    var i := Granted(w, c, items).value;
    var touched := items[i := Touched(w, items[i], c.newScope)];
    ConflictsEmptyIff(w, touched, i);
    assert touched[j] == items[j];
    assert NoConflictWith(touched[i], touched[j], RivalOf(w, touched[i], touched[j]), Candidates(w, touched[i]).value - w.generated.value);
    assert Acknowledged(touched[i], items[j].id, p) ==> Acknowledged(items[i], items[j].id, p);
  }

  /** Exclusion survives a granted admission exactly when it overlaps no claim of an entry that is not provably active. */
  lemma GrantKeepsExclusiveIff(w: World, c: Command, items: seq<Item>, generated: set<Path>, who: iset<string>)
    requires Places(items) && Exclusive(items, generated, who) && Granted(w, c, items).Some?
    requires w.generated.Some? ==> w.generated.value == generated
    ensures Exclusive(After(w, c, items), generated, who) <==> SafeAdmission(w, c, items, generated, who)
  {
    var i := Granted(w, c, items).value;
    var asked := AskedClaims(w, c, items);
    var touched := items[i := Touched(w, items[i], c.newScope)];
    ConflictsEmptyIff(w, touched, i);
    var after := After(w, c, items);
    assert after == items[i := after[i]] && after[i].acks == items[i].acks && after[i].id == items[i].id;
    assert forall p :: p in after[i].claims <==> p in asked;
    forall id, p ensures Acknowledged(after[i], id, p) <==> Acknowledged(items[i], id, p) {}
    if Exclusive(after, generated, who) && items[i].id in who {
      forall j, p | 0 <= j < |items| && j != i && items[j].id in who && !Active(w, items[j]) && p in items[j].claims && p in asked
        ensures Exempt(items[i], items[j], p, generated)
      {
        assert Apart(after[if i < j then i else j], after[if i < j then j else i], generated);
      }
    }
    if SafeAdmission(w, c, items, generated, who) {
      forall a, b | 0 <= a < b < |items| && after[a].id in who && after[b].id in who ensures Apart(after[a], after[b], generated) {
        if a != i && b != i {
          assert Apart(items[a], items[b], generated);
        } else {
          var j := if a == i then b else a;
          forall p | p in asked && p in items[j].claims ensures Exempt(items[i], items[j], p, generated) {
            if Active(w, items[j]) { GrantSparesActive(w, c, items, j, p); }
          }
        }
      }
    }
  }

  // ---- whole runs

  datatype Step = Step(w: World, c: Command)

  /** The board file after a run that starts from an empty board; the world may change arbitrarily between steps. */
  function Exec(run: seq<Step>): seq<Item> {
    if run == [] then []
    else var last := run[|run| - 1]; After(last.w, last.c, Exec(run[..|run| - 1]))
  }

  lemma {:induction false} ExecPlaces(run: seq<Step>)
    ensures Places(Exec(run))
  {
    if run != [] {
      var last := run[|run| - 1];
      ExecPlaces(run[..|run| - 1]);
      PlacesKept(last.w, last.c, Exec(run[..|run| - 1]));
    }
  }

  /** The set of generated files that main declares stays `generated` through the run. */
  ghost predicate FixedGenerated(run: seq<Step>, generated: set<Path>) {
    forall k :: 0 <= k < |run| && run[k].w.generated.Some? ==> run[k].w.generated.value == generated
  }

  ghost predicate SafeAt(run: seq<Step>, k: nat, generated: set<Path>, who: iset<string>)
    requires k < |run|
  {
    SafeAdmission(run[k].w, run[k].c, Exec(run[..k]), generated, who)
  }

  lemma ExecNext(run: seq<Step>, k: nat)
    requires k < |run|
    ensures Exec(run[..k + 1]) == After(run[k].w, run[k].c, Exec(run[..k]))
  {
    assert run[..k + 1][..k] == run[..k];
  }

  lemma {:induction false} ExclusiveUpTo(run: seq<Step>, k: nat, generated: set<Path>, who: iset<string>)
    requires k <= |run| && FixedGenerated(run, generated)
    requires forall m: nat :: m < k ==> SafeAt(run, m, generated, who)
    ensures Exclusive(Exec(run[..k]), generated, who)
  {
    if k > 0 {
      ExclusiveUpTo(run, k - 1, generated, who);
      ExecPlaces(run[..k - 1]);
      ExecNext(run, k - 1);
      var w, c, items := run[k - 1].w, run[k - 1].c, Exec(run[..k - 1]);
      assert SafeAt(run, k - 1, generated, who);
      if Granted(w, c, items).Some? { GrantKeepsExclusiveIff(w, c, items, generated, who); }
      else { OthersKeepExclusive(w, c, items, generated, who); }
    }
  }

  /** Mutual exclusion, exactly: for every run of commands in every changing world, no two entries (of those
      named by `who`) ever hold the same unexempted file if and only if no granted admission of one overlapped
      the stored claims of another that was, at that moment, not provably active. */
  lemma MutualExclusionIff(run: seq<Step>, generated: set<Path>, who: iset<string>)
    requires FixedGenerated(run, generated)
    ensures (forall k: nat :: k <= |run| ==> Exclusive(Exec(run[..k]), generated, who)) <==>
            (forall k: nat :: k < |run| ==> SafeAt(run, k, generated, who))
  {
    if forall k: nat :: k < |run| ==> SafeAt(run, k, generated, who) {
      forall k: nat | k <= |run| ensures Exclusive(Exec(run[..k]), generated, who) {
        ExclusiveUpTo(run, k, generated, who);
      }
    }
    if forall k: nat :: k <= |run| ==> Exclusive(Exec(run[..k]), generated, who) {
      forall k: nat | k < |run| ensures SafeAt(run, k, generated, who) {
        var w, c, items := run[k].w, run[k].c, Exec(run[..k]);
        ExecPlaces(run[..k]);
        ExecNext(run, k);
        assert Exclusive(Exec(run[..k]), generated, who) && Exclusive(Exec(run[..k + 1]), generated, who);
        if Granted(w, c, items).Some? { GrantKeepsExclusiveIff(w, c, items, generated, who); }
      }
    }
  }

  // ---- active owners, when eligibility is never regained

  /** The ids that name an active entry in the end. */
  ghost function Survivors(run: seq<Step>, w: World): iset<string> {
    iset z | 0 <= z < |Exec(run)| && Active(w, Exec(run)[z]) :: Exec(run)[z].id
  }

  /** Whoever is active in the end has been active at every step since it was registered. */
  ghost predicate NoRevival(run: seq<Step>, w: World) {
    forall k, y :: 0 <= k < |run| && 0 <= y < |Exec(run[..k])| && Exec(run[..k])[y].id in Survivors(run, w)
      ==> Active(run[k].w, Exec(run[..k])[y])
  }

  lemma SurvivorsAreSafe(run: seq<Step>, w: World, k: nat, generated: set<Path>)
    requires NoRevival(run, w) && k < |run|
    ensures SafeAt(run, k, generated, Survivors(run, w))
  {
    var items := Exec(run[..k]);
    forall j | 0 <= j < |items| && items[j].id in Survivors(run, w) ensures Active(run[k].w, items[j]) {}
  }

  /** If no entry ever regains eligibility, any two active entries at the end of any run hold a common file only
      if it is generated or one of the two acknowledged exactly the other's id and that file. */
  lemma ActiveEntriesExclude(run: seq<Step>, w: World, generated: set<Path>, i: nat, j: nat)
    requires FixedGenerated(run, generated) && NoRevival(run, w)
    requires i < |Exec(run)| && j < |Exec(run)| && i != j
    requires Active(w, Exec(run)[i]) && Active(w, Exec(run)[j])
    ensures Apart(Exec(run)[i], Exec(run)[j], generated)
  {
    var who := Survivors(run, w);
    assert run[..|run|] == run;
    forall k: nat | k < |run| ensures SafeAt(run, k, generated, who) { SurvivorsAreSafe(run, w, k, generated); }
    ExclusiveUpTo(run, |run|, generated, who);
    assert Exec(run)[i].id in who && Exec(run)[j].id in who;
    assert Apart(Exec(run)[if i < j then i else j], Exec(run)[if i < j then j else i], generated);
  }

  // ---- the gate before costly work

  /** Two active tasks that currently change the same file, neither having acknowledged the other for it,
      are both stopped by the scope gate. */
  lemma GateStopsBoth(w: World, items: seq<Item>, i: nat, j: nat, p: Path)
    requires Places(items) && i < |items| && j < |items| && i != j
    requires Active(w, items[i]) && Active(w, items[j])
    requires FactualPaths(w, items[i]).Some? && p in FactualPaths(w, items[i]).value
    requires FactualPaths(w, items[j]).Some? && p in FactualPaths(w, items[j]).value
    requires w.generated.Some? ==> !Exempt(items[i], items[j], p, w.generated.value)
    ensures Conflicts(w, items, i) != Ok([]) && Conflicts(w, items, j) != Ok([])
  {
    ConflictsEmptyIff(w, items, i);
    ConflictsEmptyIff(w, items, j);
    if w.generated.Some? {
      assert p in Candidates(w, items[i]).value - w.generated.value && p in Owned(w, items[j]).value;
      assert p in Candidates(w, items[j]).value - w.generated.value && p in Owned(w, items[i]).value;
      assert RivalOf(w, items[i], items[j]) == Owner(Owned(w, items[j]).value);
      assert RivalOf(w, items[j], items[i]) == Owner(Owned(w, items[i]).value);
    }
  }

  // ---- where claims come from

  predicate SamePlace(a: Item, b: Item) {
    a.worktree == b.worktree && a.branch == b.branch
  }

  /** Step `k` grants this entry's place an admission that asks for this file. */
  ghost predicate Grants(run: seq<Step>, k: nat, e: Item, p: Path)
    requires k < |run|
  {
    var w, c, items := run[k].w, run[k].c, Exec(run[..k]);
    var g := Granted(w, c, items);
    g.Some? && SamePlace(items[g.value], e) && p in AskedClaims(w, c, items)
  }

  ghost predicate Had(items: seq<Item>, e: Item, p: Path) {
    exists x :: x in items && SamePlace(x, e) && p in x.claims
  }

  ghost predicate GrantedNow(w: World, c: Command, items: seq<Item>, e: Item, p: Path) {
    var g := Granted(w, c, items);
    g.Some? && SamePlace(items[g.value], e) && p in AskedClaims(w, c, items)
  }

  /** A step that grants nothing, as one that must wait, adds nothing to anybody's claims. */
  lemma StepClaims(w: World, c: Command, items: seq<Item>, e: Item, p: Path)
    requires e in After(w, c, items) && p in e.claims
    ensures Had(items, e, p) || GrantedNow(w, c, items, e, p)
  {
    var after := After(w, c, items);
    var k :| 0 <= k < |after| && after[k] == e;
    if c.Finish? {
      KeepMembers(items, {c.id});
    } else if c.DoctorFix? {
      KeepMembers(items, Removable(w, items, c.staleHours));
    } else if k < |items| {
      assert SamePlace(items[k], e);
      if c.Admit? && Granted(w, c, items) == Some(k) { GrantClaims(w, c, items, k); }
      else { assert items[k].claims == e.claims; }
    }
  }

  lemma GrantClaims(w: World, c: Command, items: seq<Item>, i: nat)
    requires Granted(w, c, items) == Some(i)
    ensures forall p :: p in After(w, c, items)[i].claims ==> p in AskedClaims(w, c, items)
  {
    ConflictsEmptyIff(w, items[i := Touched(w, items[i], c.newScope)], i);
  }

  lemma EarlierGrants(run: seq<Step>, k: nat, x: Item, e: Item, p: Path)
    requires run != [] && k < |run| - 1 && SamePlace(x, e) && Grants(run[..|run| - 1], k, x, p)
    ensures Grants(run, k, e, p)
  {
    assert run[..|run| - 1][..k] == run[..k];
  }

  /** Over every run: each file that an entry holds was asked for by an admission granted to its worktree and branch.
      Waiting, acknowledging, heartbeats and repairs give nobody a file. */
  lemma {:induction false} ClaimsWereGranted(run: seq<Step>, e: Item, p: Path)
    requires e in Exec(run) && p in e.claims
    ensures exists k :: 0 <= k < |run| && Grants(run, k, e, p)
  {
    var front, last := run[..|run| - 1], run[|run| - 1];
    var items := Exec(front);
    StepClaims(last.w, last.c, items, e, p);
    if Had(items, e, p) {
      var x :| x in items && SamePlace(x, e) && p in x.claims;
      ClaimsWereGranted(front, x, p);
      var k :| 0 <= k < |front| && Grants(front, k, x, p);
      EarlierGrants(run, k, x, e, p);
    } else {
      assert Grants(run, |run| - 1, e, p);
    }
  }
}
