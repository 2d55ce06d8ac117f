/** The board commands as they work: under the file lock the entries are read into fresh objects, changed in
    place, and written back only if the command does not fail. */
module Board {
  import opened Results
  import opened Ordering
  import opened ScopeBoard

  class Entry {
    var id: string
    var task: string
    var scope: string
    var branch: string
    var worktree: string
    var baseHead: Option<nat>
    var heartbeat: int
    var claims: seq<Path>
    var acks: seq<Acknowledgment>
    var admission: Admission

    constructor (v: Item)
      ensures Value() == v
    {
      id, task, scope, branch, worktree := v.id, v.task, v.scope, v.branch, v.worktree;
      baseHead, heartbeat, claims, acks, admission := v.baseHead, v.heartbeat, v.claims, v.acks, v.admission;
    }

    function Value(): Item
      reads this
    {
      Item(id, task, scope, branch, worktree, baseHead, heartbeat, claims, acks, admission)
    }

    method Touch(w: World, newScope: Option<string>)
      modifies this
      ensures Value() == Touched(w, old(Value()), newScope)
    {
      if newScope.Some? { scope := newScope.value; }
      heartbeat := w.now;
    }

    method Retitle(newTask: string)
      modifies this
      ensures Value() == old(Value()).(task := newTask)
    {
      task := newTask;
    }
  }

  ghost function Values(entries: seq<Entry>): (r: seq<Item>)
    reads entries
    ensures |r| == |entries| && forall k :: 0 <= k < |entries| ==> r[k] == entries[k].Value()
  {
    seq(|entries|, k requires 0 <= k < |entries| reads entries => entries[k].Value())
  }

  ghost predicate Distinct(entries: seq<Entry>) {
    forall i, j :: 0 <= i < j < |entries| ==> entries[i] != entries[j]
  }

  /** One rival's overlapping files, in sorted order, until the diagnostic limit is reached. */
  method ScanEntry(me: Item, other: Item, paths: seq<Path>, before: seq<Conflict>) returns (found: seq<Conflict>)
    requires |before| < MAX_ADMISSION_DIAGNOSTICS
    ensures found == ScanPaths(me, other, paths, before)
  {
    found := before;
    for k := 0 to |paths|
      invariant |found| < MAX_ADMISSION_DIAGNOSTICS
      invariant ScanPaths(me, other, paths[k..], found) == ScanPaths(me, other, paths, before)
    {
      assert paths[k..][1..] == paths[k + 1..];
      if Acknowledged(me, other.id, paths[k]) { continue; }
      var conflict := Conflict(other.id, other.task, paths[k]);
      if conflict !in found { found := found + [conflict]; }
      if |found| >= MAX_ADMISSION_DIAGNOSTICS { return; }
    }
  }

  method ScanEntries(w: World, entries: seq<Entry>, current: nat, claims: set<Path>) returns (r: Result<seq<Conflict>, Failure>)
    requires current < |entries| && Distinct(entries)
    ensures r == ScanItems(Values(entries)[current], Values(entries), Rivals(w, Values(entries), current), claims, 0, [])
  {
    ghost var items := Values(entries);
    ghost var rivals := Rivals(w, items, current);
    var me := entries[current].Value();
    var found: seq<Conflict> := [];
    for j := 0 to |entries|
      invariant |found| < MAX_ADMISSION_DIAGNOSTICS
      invariant ScanItems(me, items, rivals, claims, j, found) == ScanItems(me, items, rivals, claims, 0, [])
    {
      if entries[j] == entries[current] { continue; }
      var rival := RivalOf(w, me, entries[j].Value());
      assert rivals[j] == rival;
      match rival {
        case Ignored =>
        case Unreadable => return Err(ScopeGateUnavailable);
        case Owner(paths) =>
          found := ScanEntry(me, entries[j].Value(), Sorted(claims * paths), found);
          if |found| >= MAX_ADMISSION_DIAGNOSTICS { return Ok(found); }
      }
    }
    return Ok(found);
  }

  /** `_admission_conflicts`: read-only, with an early exit at the diagnostic limit. */
  method AdmissionConflicts(w: World, entries: seq<Entry>, current: nat) returns (r: Result<seq<Conflict>, Failure>)
    requires current < |entries| && Distinct(entries)
    ensures r == Conflicts(w, Values(entries), current)
  {
    var candidates := Candidates(w, entries[current].Value());
    if candidates.None? { return Err(ScopeGateUnavailable); }
    if candidates.value == {} { return Ok([]); }
    if w.generated.None? { return Err(ScopeGateUnavailable); }
    r := ScanEntries(w, entries, current, candidates.value - w.generated.value);
  }

  /** `_admit_item`: decide, and record the decision on the entry. */
  method AdmitEntry(w: World, entries: seq<Entry>, i: nat) returns (failure: Option<Failure>)
    requires i < |entries| && Distinct(entries)
    modifies entries[i]
    ensures failure.Some? ==> Decided(w, old(Values(entries)), i) == Err(failure.value)
    ensures failure.None? ==> Decided(w, old(Values(entries)), i) == Ok(Values(entries))
  {
    var conflicts := AdmissionConflicts(w, entries, i);
    if conflicts.Err? { return Some(conflicts.error); }
    var e := entries[i];
    if conflicts.value != [] {
      e.admission := Wait(conflicts.value, w.now);
    } else {
      e.claims := Sorted(Candidates(w, e.Value()).value);
      e.admission := Run(w.now);
    }
    assert Values(entries) == old(Values(entries))[i := e.Value()];
    return None;
  }

  method FindEntry(entries: seq<Entry>, worktree: string, branch: string) returns (r: Option<nat>)
    ensures r == Find(Values(entries), worktree, branch)
  {
    for k := 0 to |entries|
      invariant Find(Values(entries), worktree, branch, k) == Find(Values(entries), worktree, branch)
    {
      if entries[k].worktree == worktree && entries[k].branch == branch { return Some(k); }
    }
    return None;
  }

  method FindEntryById(entries: seq<Entry>, id: string, except: int) returns (r: Option<nat>)
    ensures r == FindId(Values(entries), id, except)
  {
    for k := 0 to |entries|
      invariant FindId(Values(entries), id, except, k) == FindId(Values(entries), id, except)
    {
      if entries[k].id == id && k != except { return Some(k); }
    }
    return None;
  }

  lemma {:induction false} KeepNext(items: seq<Item>, e: Item, dropped: set<string>)
    ensures Keep(items + [e], dropped) == Keep(items, dropped) + if e.id in dropped then [] else [e]
  {
    if items != [] {
      assert (items + [e])[1..] == items[1..] + [e];
      KeepNext(items[1..], e, dropped);
    }
  }

  method DropIds(entries: seq<Entry>, dropped: set<string>) returns (kept: seq<Entry>)
    ensures Values(kept) == Keep(Values(entries), dropped)
  {
    kept := [];
    ghost var items := Values(entries);
    for k := 0 to |entries|
      invariant forall e :: e in kept ==> e in entries
      invariant Values(kept) == Keep(items[..k], dropped)
    {
      assert items[..k + 1] == items[..k] + [items[k]];
      KeepNext(items[..k], items[k], dropped);
      if entries[k].id !in dropped {
        assert Values(kept + [entries[k]]) == Values(kept) + [entries[k].Value()];
        kept := kept + [entries[k]];
      }
    }
    assert items[..|items|] == items;
  }

  method CollectRemovable(w: World, entries: seq<Entry>, staleHours: int) returns (removable: set<string>)
    ensures removable == Removable(w, Values(entries), staleHours)
  {
    removable := {};
    ghost var items := Values(entries);
    for k := 0 to |entries|
      invariant removable == Removable(w, items[..k], staleHours)
    {
      var e := entries[k].Value();
      assert items[..k + 1] == items[..k] + [e];
      RemovableNext(w, items[..k], e, staleHours);
      if SafeToRemove(w, e, staleHours) { removable := removable + {e.id}; }
    }
    assert items[..|items|] == items;
  }

  lemma RemovableNext(w: World, items: seq<Item>, e: Item, staleHours: int)
    ensures Removable(w, items + [e], staleHours) ==
            Removable(w, items, staleHours) + if SafeToRemove(w, e, staleHours) then {e.id} else {}
  {
    var ids := Removable(w, items + [e], staleHours);
    forall id | id in Removable(w, items, staleHours) ensures id in ids {
      var x :| x in items && SafeToRemove(w, x, staleHours) && x.id == id;
      assert x in items + [e];
    }
    if SafeToRemove(w, e, staleHours) { assert e in items + [e]; }
  }

  method Snapshot(entries: seq<Entry>) returns (items: seq<Item>)
    ensures items == Values(entries)
  {
    items := [];
    for k := 0 to |entries|
      invariant |items| == k && forall i :: 0 <= i < k ==> items[i] == entries[i].Value()
    {
      items := items + [entries[k].Value()];
    }
  }

  /** How a locked command ends: the new entries are written, or the failure is reported and the file is as before. */
  ghost predicate Committed(outcome: Result<seq<Item>, Failure>, before: seq<Item>, after: seq<Item>, failure: Option<Failure>) {
    match outcome
    case Ok(items) => after == items && failure == None
    case Err(f) => after == before && failure == Some(f)
  }

  class BoardFile {
    var stored: seq<Item>

    constructor ()
      ensures stored == []
    {
      stored := [];
    }

    method Load() returns (entries: seq<Entry>)
      ensures Values(entries) == stored && Distinct(entries)
      ensures fresh(entries)
    {
      entries := [];
      for k := 0 to |stored|
        invariant |entries| == k && Distinct(entries) && fresh(entries)
        invariant forall i :: 0 <= i < k ==> entries[i].Value() == stored[i]
      {
        var e := new Entry(stored[k]);
        entries := entries + [e];
      }
    }

    method Register(w: World, id: string, task: string, scope: string, branch: string, worktree: string, diagnosticsFail: bool)
      returns (failure: Option<Failure>)
      modifies this
      ensures Committed(Registering(w, old(stored), id, task, scope, branch, worktree, diagnosticsFail), old(stored), stored, failure)
    {
      if !ValidIdentity(w, worktree, branch) { return Some(BadIdentity); }
      var entries := Load();
      for k := 0 to |entries|
        invariant stored == old(stored) && Values(entries) == stored && fresh(entries)
        invariant !Taken(stored[..k], worktree, branch)
      {
        if entries[k].worktree == worktree || entries[k].branch == branch {
          assert stored[k].worktree == worktree || stored[k].branch == branch;
          return Some(AlreadyRegistered);
        }
      }
      assert stored[..|stored|] == stored;
      if diagnosticsFail { return Some(DiagnosticsFailed); }
      var item := Item(id, task, scope, branch, worktree, Some(w.branches[branch]), w.now, [], [], Undecided);
      var e := new Entry(item);
      assert Values(entries + [e]) == Values(entries) + [item];
      stored := Snapshot(entries + [e]);
      return None;
    }

    method Heartbeat(w: World, id: string, newTask: Option<string>, newScope: Option<string>) returns (failure: Option<Failure>)
      modifies this
      ensures Committed(Updating(w, old(stored), id, newTask, newScope), old(stored), stored, failure)
    {
      var entries := Load();
      var i := FindEntryById(entries, id, -1);
      if i.None? { return Some(UnknownEntry); }
      var e := entries[i.value];
      if newTask.Some? { e.Retitle(newTask.value); }
      e.Touch(w, newScope);
      assert Values(entries) == stored[i.value := e.Value()];
      stored := Snapshot(entries);
      return None;
    }

    /** Claims on RUN, only records the wait on WAIT, and leaves the file untouched on failure. */
    method TryAdmit(w: World, worktree: string, branch: string, newScope: Option<string>) returns (failure: Option<Failure>)
      modifies this
      ensures Committed(Admitting(w, old(stored), worktree, branch, newScope), old(stored), stored, failure)
    {
      if !ValidIdentity(w, worktree, branch) { return Some(BadIdentity); }
      var entries := Load();
      var i := FindEntry(entries, worktree, branch);
      if i.None? { return Some(UnknownEntry); }
      entries[i.value].Touch(w, newScope);
      assert Values(entries) == stored[i.value := Touched(w, stored[i.value], newScope)];
      failure := AdmitEntry(w, entries, i.value);
      if failure.None? { stored := Snapshot(entries); }
    }

    method AcknowledgeOverlap(w: World, worktree: string, branch: string, withId: string, paths: set<Path>, reason: string)
      returns (failure: Option<Failure>)
      modifies this
      ensures Committed(AcknowledgingAt(w, old(stored), worktree, branch, withId, paths, reason), old(stored), stored, failure)
    {
      if !ValidIdentity(w, worktree, branch) { return Some(BadIdentity); }
      if reason == "" { return Some(EmptyReason); }
      if paths == {} { return Some(NoPath); }
      if |paths| > MAX_ACKNOWLEDGED_PATHS { return Some(TooManyPaths); }
      var entries := Load();
      var i := FindEntry(entries, worktree, branch);
      if i.None? { return Some(UnknownEntry); }
      var o := FindEntryById(entries, withId, i.value);
      if o.None? { return Some(UnknownOther); }
      var current, other := entries[i.value], entries[o.value];
      if !Active(w, other.Value()) { return Some(OtherNotActive); }
      var asked, owned := Candidates(w, current.Value()), Owned(w, other.Value());
      if asked.None? || owned.None? { return Some(ScopeGateUnavailable); }
      if !(paths <= asked.value * owned.value) { return Some(NotConflicting); }
      current.acks := current.acks + [Acknowledgment(other.id, other.task, paths, reason, w.now)];
      stored := Snapshot(entries);
      return None;
    }

    method Remove(id: string)
      modifies this
      ensures stored == Keep(old(stored), {id})
    {
      var entries := Load();
      var kept := DropIds(entries, {id});
      stored := Snapshot(kept);
    }

    method Repair(w: World, staleHours: int)
      modifies this
      ensures stored == Keep(old(stored), Removable(w, old(stored), staleHours))
    {
      var entries := Load();
      var removable := CollectRemovable(w, entries, staleHours);
      var kept := DropIds(entries, removable);
      stored := Snapshot(kept);
    }
  }
}
