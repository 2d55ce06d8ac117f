/** Installing and removing the session hooks in a settings file that also holds hooks of others. */
module SessionHooks {
  import opened Results

  /** An entry of a hook event: its commands, or none that could be ours; `rest` is all else about it. */
  datatype Entry = Entry(commands: seq<string>, rest: string)

  /** What a settings file holds under one hook event; a list of entries, or something else, empty or not. */
  datatype Value = Entries(list: seq<Entry>) | Foreign(text: string, empty: bool)

  type Hooks = map<string, Value>

  /** The entry to install, how to tell a command of ours, and the events it is installed for. */
  datatype Wanted = Wanted(entry: Entry, marked: string -> bool, events: seq<string>)

  /** One command of ours makes the whole entry ours. */
  predicate IsOurs(w: Wanted, x: Entry) {
    exists k :: 0 <= k < |x.commands| && w.marked(x.commands[k])
  }

  ghost predicate Proper(w: Wanted) {
    IsOurs(w, w.entry)
  }

  function Ours(w: Wanted, entries: seq<Entry>): seq<Entry> {
    if entries == [] then []
    else
      var last := entries[|entries| - 1];
      Ours(w, entries[..|entries| - 1]) + if IsOurs(w, last) then [last] else []
  }

  /** The entries of others, in their order. */
  function Others(w: Wanted, entries: seq<Entry>): seq<Entry> {
    if entries == [] then []
    else
      var last := entries[|entries| - 1];
      Others(w, entries[..|entries| - 1]) + if IsOurs(w, last) then [] else [last]
  }

  function Listed(h: Hooks, event: string): Option<seq<Entry>> {
    if event !in h then Some([]) else if h[event].Entries? then Some(h[event].list) else None
  }

  /** The lists others see: what is not ours, event by event. */
  ghost predicate SameForOthers(w: Wanted, a: Hooks, b: Hooks) {
    forall e :: e in w.events ==>
      Listed(a, e).Some? && Listed(b, e).Some? && Others(w, Listed(a, e).value) == Others(w, Listed(b, e).value)
  }

  // ---- one event

  datatype Refusal = NotAList(event: string) | DifferentHooks(event: string)

  function InstallOne(w: Wanted, h: Hooks, event: string): Result<(Hooks, bool), Refusal> {
    match Listed(h, event)
    case None => Err(NotAList(event))
    case Some(entries) =>
      var ours := Ours(w, entries);
      if ours != [] && ours != [w.entry] then Err(DifferentHooks(event))
      else if ours == [] then Ok((h[event := Entries(entries + [w.entry])], true))
      else Ok((h, false))
  }

  function RemoveOne(w: Wanted, h: Hooks, event: string): Result<(Hooks, bool), Refusal> {
    match Listed(h, event)
    case None => Err(NotAList(event))
    case Some(entries) =>
      if Ours(w, entries) != [] then Ok((h[event := Entries(Others(w, entries))], true)) else Ok((h, false))
  }

  function EditOne(w: Wanted, h: Hooks, event: string, remove: bool): Result<(Hooks, bool), Refusal> {
    if remove then RemoveOne(w, h, event) else InstallOne(w, h, event)
  }

  /** The first `n` events, and whether anything changed. */
  function EditFirst(w: Wanted, h: Hooks, n: nat, remove: bool): Result<(Hooks, bool), Refusal>
    requires n <= |w.events|
  {
    if n == 0 then Ok((h, false))
    else
      match EditFirst(w, h, n - 1, remove)
      case Err(r) => Err(r)
      case Ok((before, changed)) =>
        match EditOne(w, before, w.events[n - 1], remove)
        case Err(r) => Err(r)
        case Ok((after, more)) => Ok((after, changed || more))
  }

  predicate Empty(v: Value) {
    match v case Entries(list) => list == [] case Foreign(_, empty) => empty
  }

  /** Without the events that hold nothing. */
  function Cleaned(h: Hooks): Hooks {
    map e | e in h && !Empty(h[e]) :: h[e]
  }

  /** What is written, or nothing if nothing changed. */
  function Edited(w: Wanted, h: Hooks, remove: bool): Result<(Hooks, bool), Refusal> {
    match EditFirst(w, h, |w.events|, remove)
    case Err(r) => Err(r)
    case Ok((after, changed)) => if changed then Ok((Cleaned(after), true)) else Ok((h, false))
  }

  /** The loop over the events; the file is written at the end or not at all. */
  method EditSettings(w: Wanted, h: Hooks, remove: bool) returns (r: Result<(Hooks, bool), Refusal>)
    ensures r == Edited(w, h, remove)
  {
    var hooks, changed := h, false;
    for k := 0 to |w.events|
      invariant EditFirst(w, h, k, remove) == Ok((hooks, changed))
    {
      var event := w.events[k];
      var entries := Listed(hooks, event);
      if entries.None? {
        StopsThere(w, h, k + 1, remove);
        return Err(NotAList(event));
      }
      var ours := Ours(w, entries.value);
      if remove {
        if ours != [] { hooks, changed := hooks[event := Entries(Others(w, entries.value))], true; }
      } else if ours != [] && ours != [w.entry] {
        StopsThere(w, h, k + 1, remove);
        return Err(DifferentHooks(event));
      } else if ours == [] {
        hooks, changed := hooks[event := Entries(entries.value + [w.entry])], true;
      }
    }
    if !changed {
      Unchanged(w, h, |w.events|, remove);
      return Ok((h, false));
    }
    return Ok((Cleaned(hooks), true));
  }

  lemma {:induction false} StopsThere(w: Wanted, h: Hooks, n: nat, remove: bool)
    requires n <= |w.events| && EditFirst(w, h, n, remove).Err?
    ensures EditFirst(w, h, |w.events|, remove) == EditFirst(w, h, n, remove)
    decreases |w.events| - n
  {
    if n < |w.events| { StopsThere(w, h, n + 1, remove); }
  }

  lemma {:induction false} Unchanged(w: Wanted, h: Hooks, n: nat, remove: bool)
    requires n <= |w.events| && EditFirst(w, h, n, remove).Ok? && !EditFirst(w, h, n, remove).value.1
    ensures EditFirst(w, h, n, remove).value.0 == h
  {
    if n > 0 { Unchanged(w, h, n - 1, remove); }
  }

  // ---- parts of a list

  lemma {:induction false} PartsConcat(w: Wanted, a: seq<Entry>, b: seq<Entry>)
    ensures Ours(w, a + b) == Ours(w, a) + Ours(w, b) && Others(w, a + b) == Others(w, a) + Others(w, b)
    decreases |b|
  {
    if b == [] { assert a + b == a; }
    else {
      assert (a + b)[..|a + b| - 1] == a + b[..|b| - 1];
      PartsConcat(w, a, b[..|b| - 1]);
    }
  }

  lemma {:induction false} PartsNext(w: Wanted, q: seq<Entry>, x: Entry)
    ensures Ours(w, q + [x]) == Ours(w, q) + (if IsOurs(w, x) then [x] else [])
    ensures Others(w, q + [x]) == Others(w, q) + if IsOurs(w, x) then [] else [x]
  {
    assert (q + [x])[..|q|] == q;
  }

  lemma {:induction false} PartsOfOthers(w: Wanted, q: seq<Entry>)
    ensures Ours(w, Others(w, q)) == [] && Others(w, Others(w, q)) == Others(w, q)
  {
    if q != [] {
      var front, last := q[..|q| - 1], q[|q| - 1];
      PartsOfOthers(w, front);
      if IsOurs(w, last) { assert Others(w, q) == Others(w, front); } else { PartsNext(w, Others(w, front), last); }
    }
  }

  lemma {:induction false} NoneOurs(w: Wanted, q: seq<Entry>)
    requires Ours(w, q) == []
    ensures Others(w, q) == q
  {
    if q != [] {
      var front, last := q[..|q| - 1], q[|q| - 1];
      NoneOurs(w, front);
      assert q == front + [last];
    }
  }

  lemma {:induction false} PartsOfInstalled(w: Wanted, q: seq<Entry>)
    requires Proper(w) && Ours(w, q) == []
    ensures Ours(w, q + [w.entry]) == [w.entry] && Others(w, q + [w.entry]) == q
  {
    PartsNext(w, q, w.entry);
    NoneOurs(w, q);
  }

  // ---- what an edit leaves

  /** What the edit makes of one event, whenever its turn comes. */
  function After(w: Wanted, h: Hooks, event: string, remove: bool): Option<seq<Entry>> {
    match Listed(h, event)
    case None => None
    case Some(q) =>
      if remove then Some(Others(w, q))
      else if Ours(w, q) == [] then Some(q + [w.entry])
      else if Ours(w, q) == [w.entry] then Some(q) else None
  }

  ghost predicate Distinct(q: seq<string>) {
    forall i, j :: 0 <= i < j < |q| ==> q[i] != q[j]
  }

  /** Whether the edit changes this event. */
  predicate Touches(w: Wanted, h: Hooks, event: string, remove: bool) {
    Listed(h, event).Some? && if remove then Ours(w, Listed(h, event).value) != [] else Ours(w, Listed(h, event).value) == []
  }

  lemma {:induction false} OneDone(w: Wanted, h: Hooks, event: string, remove: bool)
    requires EditOne(w, h, event, remove).Ok?
    ensures var (after, changed) := EditOne(w, h, event, remove).value;
            && Listed(after, event) == After(w, h, event, remove) && After(w, h, event, remove).Some?
            && changed == Touches(w, h, event, remove)
            && forall e :: e != event ==> (e in after <==> e in h) && (e in h ==> after[e] == h[e])
  {
    var q := Listed(h, event).value;
    if remove && Ours(w, q) == [] { NoneOurs(w, q); }
  }

  /** The event stands at position `p` of the events and nowhere else; at their end if it is none of them. */
  ghost predicate Only(w: Wanted, e: string, p: nat) {
    p <= |w.events| && forall k :: 0 <= k < |w.events| ==> (w.events[k] == e <==> k == p)
  }

  ghost predicate Same(a: Hooks, b: Hooks, e: string) {
    (e in a <==> e in b) && (e in a ==> a[e] == b[e])
  }

  /** An event changes at its turn, and only then. */
  lemma {:induction false} EditAt(w: Wanted, h: Hooks, n: nat, remove: bool, e: string, p: nat)
    requires Only(w, e, p) && n <= |w.events| && EditFirst(w, h, n, remove).Ok?
    ensures var after := EditFirst(w, h, n, remove).value.0;
            if p < n then Listed(after, e) == After(w, h, e, remove) && Listed(after, e).Some? else Same(after, h, e)
  {
    if n > 0 {
      EditAt(w, h, n - 1, remove, e, p);
      var before, x := EditFirst(w, h, n - 1, remove).value.0, w.events[n - 1];
      OneDone(w, before, x, remove);
      assert x == e <==> p == n - 1;
    }
  }

  lemma {:induction false} EditChanges(w: Wanted, h: Hooks, n: nat, remove: bool)
    requires Distinct(w.events) && n <= |w.events| && EditFirst(w, h, n, remove).Ok?
    ensures EditFirst(w, h, n, remove).value.1 == exists k :: 0 <= k < n && Touches(w, h, w.events[k], remove)
  {
    if n > 0 {
      EditChanges(w, h, n - 1, remove);
      var before, e := EditFirst(w, h, n - 1, remove).value.0, w.events[n - 1];
      EditAt(w, h, n - 1, remove, e, n - 1);
      OneDone(w, before, e, remove);
    }
  }

  lemma {:induction false} OnlyIndex(w: Wanted, e: string) returns (p: nat)
    requires Distinct(w.events)
    ensures Only(w, e, p) && (e in w.events <==> p < |w.events|)
  {
    if e in w.events { p :| p < |w.events| && w.events[p] == e; } else { p := |w.events|; }
  }

  /** An edit succeeds exactly if every event it is for holds a list, and none holds other session hooks. */
  lemma {:induction false} SucceedsIff(w: Wanted, h: Hooks, n: nat, remove: bool)
    requires Distinct(w.events) && n <= |w.events|
    ensures EditFirst(w, h, n, remove).Ok? <==> forall k :: 0 <= k < n ==> After(w, h, w.events[k], remove).Some?
  {
    if n > 0 {
      SucceedsIff(w, h, n - 1, remove);
      if EditFirst(w, h, n - 1, remove).Ok? {
        EditAt(w, h, n - 1, remove, w.events[n - 1], n - 1);
      }
    }
  }

  // ---- the theorems

  /** The settings after an edit. */
  function Result0(w: Wanted, h: Hooks, remove: bool): Hooks
    requires Edited(w, h, remove).Ok?
  {
    Edited(w, h, remove).value.0
  }

  lemma {:induction false} EditedDone(w: Wanted, h: Hooks, remove: bool, event: string)
    requires Distinct(w.events) && Edited(w, h, remove).Ok?
    ensures event in w.events ==> After(w, h, event, remove).Some? && Listed(Result0(w, h, remove), event) == After(w, h, event, remove)
    ensures event !in w.events && event in h && !Empty(h[event]) ==> event in Result0(w, h, remove) && Result0(w, h, remove)[event] == h[event]
    ensures event !in w.events && event !in h ==> event !in Result0(w, h, remove)
    ensures Edited(w, h, remove).value.1 && event in Result0(w, h, remove) ==> !Empty(Result0(w, h, remove)[event])
    ensures event !in w.events && event in Result0(w, h, remove) ==> event in h && Result0(w, h, remove)[event] == h[event]
  {
    var n := |w.events|;
    var p := OnlyIndex(w, event);
    EditAt(w, h, n, remove, event, p);
    if !EditFirst(w, h, n, remove).value.1 { Unchanged(w, h, n, remove); }
  }

  /** Neither edit drops or reorders an entry of others, under any event. */
  lemma {:induction false} OthersKept(w: Wanted, h: Hooks, remove: bool)
    requires Proper(w) && Distinct(w.events) && Edited(w, h, remove).Ok?
    ensures SameForOthers(w, h, Result0(w, h, remove))
    ensures forall e :: e !in w.events && e in h && !Empty(h[e]) ==> e in Result0(w, h, remove) && Result0(w, h, remove)[e] == h[e]
  {
    forall e | e in w.events
      ensures Listed(h, e).Some? && Listed(Result0(w, h, remove), e).Some?
      ensures Others(w, Listed(h, e).value) == Others(w, Listed(Result0(w, h, remove), e).value)
    {
      EditedDone(w, h, remove, e);
      var q := Listed(h, e).value;
      PartsOfOthers(w, q);
      if Ours(w, q) == [] {
        PartsOfInstalled(w, q);
        NoneOurs(w, q);
      }
    }
    forall e | e !in w.events && e in h && !Empty(h[e]) ensures e in Result0(w, h, remove) && Result0(w, h, remove)[e] == h[e] {
      EditedDone(w, h, remove, e);
    }
  }

  /** Among the entries of an event, one that has no command of ours survives either edit. One that has loses all its
      commands to a removal, those of others among them. */
  lemma {:induction false} CommandSurvivesIff(w: Wanted, h: Hooks, remove: bool, event: string, x: Entry)
    requires Proper(w) && Distinct(w.events) && Edited(w, h, remove).Ok? && event in w.events
    requires Listed(h, event).Some? && x in Listed(h, event).value
    ensures Listed(Result0(w, h, remove), event).Some?
    ensures x in Listed(Result0(w, h, remove), event).value
       <==> !remove || forall k :: 0 <= k < |x.commands| ==> !w.marked(x.commands[k])
  {
    EditedDone(w, h, remove, event);
    OthersAre(w, Listed(h, event).value, x);
  }

  lemma {:induction false} OthersAre(w: Wanted, q: seq<Entry>, x: Entry)
    ensures x in Others(w, q) <==> x in q && !IsOurs(w, x)
  {
    if q != [] {
      OthersAre(w, q[..|q| - 1], x);
      assert q == q[..|q| - 1] + [q[|q| - 1]];
    }
  }

  /** Doing it again changes nothing. */
  lemma {:induction false} Idempotent(w: Wanted, h: Hooks, remove: bool)
    requires Proper(w) && Distinct(w.events) && Edited(w, h, remove).Ok?
    ensures Edited(w, Result0(w, h, remove), remove) == Ok((Result0(w, h, remove), false))
  {
    var after, n := Result0(w, h, remove), |w.events|;
    forall k | 0 <= k < n ensures After(w, after, w.events[k], remove).Some? && !Touches(w, after, w.events[k], remove) {
      var e := w.events[k];
      EditedDone(w, h, remove, e);
      var q := Listed(h, e).value;
      PartsOfOthers(w, q);
      if Ours(w, q) == [] { PartsOfInstalled(w, q); }
    }
    SucceedsIff(w, after, n, remove);
    EditChanges(w, after, n, remove);
  }

  /** Removing after installing restores the settings there were, up to events that hold nothing. */
  lemma {:induction false} RemoveUndoesInstall(w: Wanted, h: Hooks)
    requires Proper(w) && Distinct(w.events) && w.events != [] && Edited(w, h, false).Ok?
    requires forall e :: e in w.events ==> Listed(h, e).Some? && Ours(w, Listed(h, e).value) == []
    ensures Edited(w, Result0(w, h, false), true).Ok?
    ensures Result0(w, Result0(w, h, false), true) == Cleaned(h)
  {
    Installs(w, h);
    var installed, n := Result0(w, h, false), |w.events|;
    forall k | 0 <= k < n ensures After(w, installed, w.events[k], true).Some? && Touches(w, installed, w.events[k], true) {
      EditedDone(w, h, false, w.events[k]);
      PartsOfInstalled(w, Listed(h, w.events[k]).value);
    }
    SucceedsIff(w, installed, n, true);
    EditChanges(w, installed, n, true);
    assert Touches(w, installed, w.events[0], true);
    forall e ensures e in Result0(w, installed, true) <==> e in Cleaned(h)
      ensures e in Cleaned(h) ==> Result0(w, installed, true)[e] == Cleaned(h)[e]
    {
      Restored(w, h, e);
    }
  }

  lemma {:induction false} Installs(w: Wanted, h: Hooks)
    requires Distinct(w.events) && w.events != [] && Edited(w, h, false).Ok?
    requires forall e :: e in w.events ==> Listed(h, e).Some? && Ours(w, Listed(h, e).value) == []
    ensures Edited(w, h, false).value.1
  {
    EditChanges(w, h, |w.events|, false);
    assert Touches(w, h, w.events[0], false);
  }

  lemma {:induction false} Restored(w: Wanted, h: Hooks, e: string)
    requires Proper(w) && Distinct(w.events) && Edited(w, h, false).Ok?
    requires e in w.events ==> Listed(h, e).Some? && Ours(w, Listed(h, e).value) == []
    requires var installed := Result0(w, h, false); Edited(w, installed, true).Ok? && Edited(w, installed, true).value.1
    requires Edited(w, h, false).value.1
    ensures var after := Result0(w, Result0(w, h, false), true);
            (e in after <==> e in Cleaned(h)) && (e in after ==> after[e] == Cleaned(h)[e])
  {
    var installed := Result0(w, h, false);
    EditedDone(w, h, false, e);
    EditedDone(w, installed, true, e);
    if e in w.events { PartsOfInstalled(w, Listed(h, e).value); }
  }
}
