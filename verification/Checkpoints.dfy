/** The retrospective receipt of a task: what recording it demands, and when the completion gate accepts it later. */
module Checkpoints {
  import opened Results

  /** A logged event; `task` is the task it is attributed to, `signal` a workaround, override, recurrence or drift. */
  datatype Event = Event(id: string, task: string, lifecycle: bool, severe: bool, signal: bool, recurrence: bool)

  /** What both sides read: the log, the head, the proof of the task's content, and the sources that cannot be read. */
  datatype Scene<!P> = Scene(log: seq<Event>, head: Option<string>, content: Option<P>, gaps: set<string>)

  datatype Disposition = Disposition(id: string, outcome: string)

  datatype Checkpoint<!P> = Checkpoint(hasEvents: bool, eventIds: seq<string>, dispositions: seq<Disposition>, accepted: set<string>,
                                       note: string, head: Option<string>, content: Option<P>)

  datatype Refusal = UnknownEvent | Malformed | NotMandatory | UnknownOutcome | Recurrence | Repeated | Unclassified | Unlinked | Gaps
                   | NoNote | NoHead | NotExactHead | StaleContent | StaleHead

  // ---- the signals that need a word

  predicate IsFailure(e: Event, task: string) {
    e.task == task && e.lifecycle && e.severe
  }

  predicate IsSignal(e: Event, task: string) {
    e.task == task && e.signal
  }

  predicate IsMandatory(e: Event, task: string) {
    IsFailure(e, task) || IsSignal(e, task)
  }

  function IdsOf(log: seq<Event>): set<string> {
    set e | e in log :: e.id
  }

  /** Mandatory events by id; lifecycle failures go before other signals, and the first of an id counts. */
  function Known(log: seq<Event>, task: string): map<string, bool> {
    Signals(log, task, Failures(log, task))
  }

  function Failures(log: seq<Event>, task: string): map<string, bool> {
    if log == [] then map[]
    else
      var known, last := Failures(log[..|log| - 1], task), log[|log| - 1];
      if IsFailure(last, task) && last.id !in known then known[last.id := last.recurrence] else known
  }

  function Signals(log: seq<Event>, task: string, known: map<string, bool>): map<string, bool> {
    if log == [] then known
    else
      var more, last := Signals(log[..|log| - 1], task, known), log[|log| - 1];
      if IsSignal(last, task) && last.id !in more then more[last.id := last.recurrence] else more
  }

  // ---- dispositions as text

  function EqualsAt(s: string): (n: nat)
    ensures n <= |s| && (n < |s| ==> s[n] == '=') && forall k :: 0 <= k < n ==> s[k] != '='
  {
    if s == [] || s[0] == '=' then 0 else 1 + EqualsAt(s[1..])
  }

  function Written(d: Disposition): string {
    d.id + ['='] + d.outcome
  }

  /** One `<event-id>=<outcome>`, the ids before it being taken. */
  function ParseOne(value: string, known: map<string, bool>, outcomes: set<string>, taken: seq<Disposition>): Result<Disposition, Refusal> {
    var n := EqualsAt(value);
    if n == |value| || n == 0 || n + 1 == |value| then Err(Malformed)
    else
      var d := Disposition(value[..n], value[n + 1..]);
      if d.id !in known then Err(NotMandatory)
      else if d.outcome !in outcomes then Err(UnknownOutcome)
      else if known[d.id] then Err(Recurrence)
      else if exists t :: t in taken && t.id == d.id then Err(Repeated)
      else Ok(d)
  }

  function ParseFirst(values: seq<string>, n: nat, known: map<string, bool>, outcomes: set<string>): Result<seq<Disposition>, Refusal>
    requires n <= |values|
  {
    if n == 0 then Ok([])
    else
      match ParseFirst(values, n - 1, known, outcomes)
      case Err(r) => Err(r)
      case Ok(taken) =>
        match ParseOne(values[n - 1], known, outcomes, taken)
        case Err(r) => Err(r)
        case Ok(d) => Ok(taken + [d])
  }

  /** The loop of `parse_lifecycle_dispositions`. */
  method ParseDispositions(values: seq<string>, known: map<string, bool>, outcomes: set<string>) returns (r: Result<seq<Disposition>, Refusal>)
    ensures r == ParseFirst(values, |values|, known, outcomes)
  {
    var taken: seq<Disposition> := [];
    for k := 0 to |values|
      invariant ParseFirst(values, k, known, outcomes) == Ok(taken)
    {
      var one := ParseOne(values[k], known, outcomes, taken);
      if one.Err? {
        StopsThere(values, k + 1, known, outcomes);
        return Err(one.error);
      }
      taken := taken + [one.value];
    }
    return Ok(taken);
  }

  lemma {:induction false} StopsThere(values: seq<string>, n: nat, known: map<string, bool>, outcomes: set<string>)
    requires n <= |values| && ParseFirst(values, n, known, outcomes).Err?
    ensures ParseFirst(values, |values|, known, outcomes) == ParseFirst(values, n, known, outcomes)
    decreases |values| - n
  {
    if n < |values| { StopsThere(values, n + 1, known, outcomes); }
  }

  function WrittenAll(dispositions: seq<Disposition>): (r: seq<string>)
    ensures |r| == |dispositions| && forall k :: 0 <= k < |r| ==> r[k] == Written(dispositions[k])
  {
    seq(|dispositions|, k requires 0 <= k < |dispositions| => Written(dispositions[k]))
  }

  // ---- both sides

  predicate Explained(id: string, eventIds: seq<string>, dispositions: seq<Disposition>) {
    id in eventIds || exists d :: d in dispositions && d.id == id
  }

  /** What both sides demand of the log. */
  function CheckLog(log: seq<Event>, task: string, eventIds: seq<string>, dispositions: seq<Disposition>): Option<Refusal> {
    if exists e :: e in log && IsFailure(e, task) && !Explained(e.id, eventIds, dispositions) then Some(Unclassified)
    else if exists e :: e in log && IsSignal(e, task) && !Explained(e.id, eventIds, dispositions) then Some(Unlinked)
    else None
  }

  /** What a retrospective states; `note` is normalised, and `head` is given only when it is not the current one. */
  datatype Statement = Statement(eventIds: seq<string>, values: seq<string>, accepted: set<string>, note: string, head: Option<string>)

  function Record<P>(s: Scene<P>, task: string, outcomes: set<string>, x: Statement): Result<Checkpoint<P>, Refusal> {
    if x.note == [] then Err(NoNote)
    else if exists id :: id in x.eventIds && id !in IdsOf(s.log) then Err(UnknownEvent)
    else
      match ParseFirst(x.values, |x.values|, Known(s.log, task), outcomes)
      case Err(r) => Err(r)
      case Ok(dispositions) =>
        match CheckLog(s.log, task, x.eventIds, dispositions)
        case Some(r) => Err(r)
        case None =>
          if !(s.gaps <= x.accepted) then Err(Gaps)
          else Ok(Checkpoint(x.eventIds != [], x.eventIds, dispositions, x.accepted, x.note,
                             if x.head.Some? then x.head else s.head, s.content))
  }

  /** `equivalent` is the proof that recorded content and current content are the same for the task. */
  function Require<P>(s: Scene<P>, task: string, outcomes: set<string>, equivalent: (P, Option<P>) -> bool, c: Checkpoint<P>, exact: bool)
    : Option<Refusal>
  {
    if c.note == [] then Some(NoNote)
    else if c.hasEvents && (c.eventIds == [] || exists id :: id in c.eventIds && id !in IdsOf(s.log)) then Some(UnknownEvent)
    else
      match ParseFirst(WrittenAll(c.dispositions), |c.dispositions|, Known(s.log, task), outcomes)
      case Err(r) => Some(r)
      case Ok(dispositions) =>
        match CheckLog(s.log, task, c.eventIds, dispositions)
        case Some(r) => Some(r)
        case None =>
          if !(s.gaps <= c.accepted) then Some(Gaps)
          else if s.head.None? then Some(NoHead)
          else if exact && c.head != s.head then Some(NotExactHead)
          else if c.content.Some? then (if equivalent(c.content.value, s.content) then None else Some(StaleContent))
          else if c.head != s.head then Some(StaleHead)
          else None
  }

  // ---- dispositions survive being stored

  lemma {:induction false} EqualsAtIs(s: string, n: nat)
    requires n < |s| && s[n] == '=' && forall k :: 0 <= k < n ==> s[k] != '='
    ensures EqualsAt(s) == n
  {
    if n > 0 { EqualsAtIs(s[1..], n - 1); }
  }

  lemma {:induction false} OneSurvives(value: string, known: map<string, bool>, more: map<string, bool>, outcomes: set<string>, taken: seq<Disposition>)
    requires ParseOne(value, known, outcomes, taken).Ok?
    requires forall id :: id in known ==> id in more && more[id] == known[id]
    ensures var d := ParseOne(value, known, outcomes, taken); ParseOne(Written(d.value), more, outcomes, taken) == d
  {
    var n := EqualsAt(value);
    var w := Written(ParseOne(value, known, outcomes, taken).value);
    assert w == value;
    EqualsAtIs(w, n);
  }

  lemma {:induction false} StoredSurvive(values: seq<string>, n: nat, known: map<string, bool>, more: map<string, bool>, outcomes: set<string>,
                                         all: seq<Disposition>)
    requires n <= |values| && ParseFirst(values, n, known, outcomes).Ok?
    requires n <= |all| && ParseFirst(values, n, known, outcomes).value == all[..n]
    requires forall id :: id in known ==> id in more && more[id] == known[id]
    ensures ParseFirst(WrittenAll(all), n, more, outcomes) == Ok(all[..n])
  {
    if n > 0 {
      var before := ParseFirst(values, n - 1, known, outcomes).value;
      assert all[..n] == before + [ParseOne(values[n - 1], known, outcomes, before).value];
      assert before == all[..n][..n - 1] == all[..n - 1];
      StoredSurvive(values, n - 1, known, more, outcomes, all);
      OneSurvives(values[n - 1], known, more, outcomes, before);
      assert all[n - 1] == all[..n][n - 1];
    }
  }

  lemma {:induction false} ParsedCount(values: seq<string>, n: nat, known: map<string, bool>, outcomes: set<string>)
    requires n <= |values| && ParseFirst(values, n, known, outcomes).Ok?
    ensures |ParseFirst(values, n, known, outcomes).value| == n
  {
    if n > 0 { ParsedCount(values, n - 1, known, outcomes); }
  }

  lemma {:induction false} ParsedKnown(values: seq<string>, n: nat, known: map<string, bool>, outcomes: set<string>)
    requires n <= |values| && ParseFirst(values, n, known, outcomes).Ok?
    ensures forall d :: d in ParseFirst(values, n, known, outcomes).value ==> d.id in known
  {
    if n > 0 { ParsedKnown(values, n - 1, known, outcomes); }
  }

  // ---- the log grows

  lemma {:induction false} FailuresKnown(log: seq<Event>, task: string)
    ensures forall id :: id in Failures(log, task) ==> id in IdsOf(log)
  {
    if log != [] {
      FailuresKnown(log[..|log| - 1], task);
      assert log == log[..|log| - 1] + [log[|log| - 1]];
    }
  }

  lemma {:induction false} SignalsKnown(log: seq<Event>, task: string, known: map<string, bool>)
    ensures forall id :: id in Signals(log, task, known) ==> id in known || id in IdsOf(log)
    ensures forall id :: id in known ==> id in Signals(log, task, known) && Signals(log, task, known)[id] == known[id]
  {
    if log != [] {
      SignalsKnown(log[..|log| - 1], task, known);
      assert log == log[..|log| - 1] + [log[|log| - 1]];
    }
  }

  lemma {:induction false} FailuresGrow(log: seq<Event>, more: seq<Event>, task: string)
    requires forall e :: e in more ==> e.id !in IdsOf(log)
    ensures forall id :: id in Failures(log, task) ==> id in Failures(log + more, task) && Failures(log + more, task)[id] == Failures(log, task)[id]
    ensures forall id :: id in IdsOf(log) && id in Failures(log + more, task) ==> id in Failures(log, task)
    decreases |more|
  {
    if more == [] { assert log + more == log; }
    else {
      var front := more[..|more| - 1];
      FailuresGrow(log, front, task);
      assert (log + more)[..|log + more| - 1] == log + front;
      assert more == front + [more[|more| - 1]];
    }
  }

  lemma {:induction false} SignalsGrow(log: seq<Event>, task: string, known: map<string, bool>, later: map<string, bool>, ids: set<string>)
    requires IdsOf(log) <= ids
    requires forall id :: id in known ==> id in later && later[id] == known[id]
    requires forall id :: id in ids && id in later ==> id in known
    ensures forall id :: id in Signals(log, task, known) ==>
              id in Signals(log, task, later) && Signals(log, task, later)[id] == Signals(log, task, known)[id]
    ensures forall id :: id in ids && id in Signals(log, task, later) ==> id in Signals(log, task, known)
  {
    if log != [] {
      var front, last := log[..|log| - 1], log[|log| - 1];
      assert log == front + [last] && last in log;
      assert forall e :: e in front ==> e in log;
      SignalsGrow(front, task, known, later, ids);
    }
  }

  lemma {:induction false} SignalsAppend(log: seq<Event>, more: seq<Event>, task: string, known: map<string, bool>)
    ensures Signals(log + more, task, known) == Signals(more, task, Signals(log, task, known))
    decreases |more|
  {
    if more == [] { assert log + more == log; }
    else {
      assert (log + more)[..|log + more| - 1] == log + more[..|more| - 1];
      SignalsAppend(log, more[..|more| - 1], task, known);
    }
  }

  /** New events with new ids change nothing of what is known of the old ones. */
  lemma {:induction false} KnownGrows(log: seq<Event>, more: seq<Event>, task: string)
    requires forall e :: e in more ==> e.id !in IdsOf(log)
    ensures forall id :: id in Known(log, task) ==> id in Known(log + more, task) && Known(log + more, task)[id] == Known(log, task)[id]
  {
    FailuresGrow(log, more, task);
    FailuresKnown(log, task);
    SignalsGrow(log, task, Failures(log, task), Failures(log + more, task), IdsOf(log));
    SignalsAppend(log, more, task, Failures(log + more, task));
    SignalsKnown(more, task, Signals(log, task, Failures(log + more, task)));
  }

  lemma {:induction false} KnownIds(log: seq<Event>, task: string)
    ensures forall id :: id in Known(log, task) ==> id in IdsOf(log)
  {
    FailuresKnown(log, task);
    SignalsKnown(log, task, Failures(log, task));
  }

  /** The log that grew holds a new unexplained signal, or the checkpoint passes it as it passed the old one. */
  lemma {:induction false} LogStillChecked(log: seq<Event>, more: seq<Event>, task: string, eventIds: seq<string>, dispositions: seq<Disposition>)
    requires CheckLog(log, task, eventIds, dispositions).None?
    requires forall e :: e in more ==> !Explained(e.id, eventIds, dispositions)
    ensures CheckLog(log + more, task, eventIds, dispositions).None? <==> forall e :: e in more ==> !IsMandatory(e, task)
  {
    var all := log + more;
    if forall e :: e in more ==> !IsMandatory(e, task) {
      forall e | e in all && IsMandatory(e, task) ensures Explained(e.id, eventIds, dispositions) { assert e in log; }
    } else {
      var e :| e in more && IsMandatory(e, task);
      assert e in all;
    }
  }

  lemma {:induction false} NewIsUnexplained<P>(s: Scene<P>, task: string, outcomes: set<string>, x: Statement, e: Event)
    requires Record(s, task, outcomes, x).Ok? && e.id !in IdsOf(s.log)
    ensures var c := Record(s, task, outcomes, x).value; !Explained(e.id, c.eventIds, c.dispositions)
  {
    ParsedKnown(x.values, |x.values|, Known(s.log, task), outcomes);
    KnownIds(s.log, task);
  }

  lemma {:induction false} StoredStillRead<P>(s: Scene<P>, more: seq<Event>, task: string, outcomes: set<string>, x: Statement)
    requires Record(s, task, outcomes, x).Ok? && forall e :: e in more ==> e.id !in IdsOf(s.log)
    ensures var c := Record(s, task, outcomes, x).value;
            ParseFirst(WrittenAll(c.dispositions), |c.dispositions|, Known(s.log + more, task), outcomes) == Ok(c.dispositions)
  {
    var c, known := Record(s, task, outcomes, x).value, Known(s.log, task);
    ParsedCount(x.values, |x.values|, known, outcomes);
    KnownGrows(s.log, more, task);
    assert c.dispositions[..|x.values|] == c.dispositions;
    StoredSurvive(x.values, |x.values|, known, Known(s.log + more, task), outcomes, c.dispositions);
  }

  /** A recorded checkpoint is accepted later exactly if no mandatory signal of the task was logged since, every source
      is readable or was accepted as a gap, and the content is proven the same, or, without a recorded proof, the head is. */
  lemma {:induction false} AcceptedLaterIff<P>(s: Scene<P>, task: string, outcomes: set<string>, equivalent: (P, Option<P>) -> bool, x: Statement,
                                               more: seq<Event>, later: Scene<P>, exact: bool)
    requires Record(s, task, outcomes, x).Ok? && later.log == s.log + more && forall e :: e in more ==> e.id !in IdsOf(s.log)
    ensures var c := Record(s, task, outcomes, x).value;
            Require(later, task, outcomes, equivalent, c, exact).None?
            == (&& (forall e :: e in more ==> !IsMandatory(e, task))
                && later.gaps <= c.accepted && later.head.Some? && (exact ==> c.head == later.head)
                && (if c.content.Some? then equivalent(c.content.value, later.content) else c.head == later.head))
  {
    var c := Record(s, task, outcomes, x).value;
    StoredStillRead(s, more, task, outcomes, x);
    forall e | e in more ensures !Explained(e.id, c.eventIds, c.dispositions) { NewIsUnexplained(s, task, outcomes, x, e); }
    LogStillChecked(s.log, more, task, c.eventIds, c.dispositions);
    assert IdsOf(s.log) <= IdsOf(later.log);
    assert !(exists id :: id in c.eventIds && id !in IdsOf(later.log));
  }

  /** A stored disposition is read again exactly if its event is still a mandatory signal and no recurrence. */
  lemma {:induction false} OneReadIff(value: string, known: map<string, bool>, later: map<string, bool>, outcomes: set<string>, taken: seq<Disposition>)
    requires ParseOne(value, known, outcomes, taken).Ok?
    ensures var d := ParseOne(value, known, outcomes, taken).value;
            var again := ParseOne(Written(d), later, outcomes, taken);
            (again.Ok? <==> d.id in later && !later[d.id]) && (again.Ok? ==> again.value == d)
  {
    var n := EqualsAt(value);
    var w := Written(ParseOne(value, known, outcomes, taken).value);
    assert w == value;
    EqualsAtIs(w, n);
  }

  predicate StillOpen(d: Disposition, later: map<string, bool>) {
    d.id in later && !later[d.id]
  }

  lemma {:induction false} StoredReadIff(values: seq<string>, n: nat, known: map<string, bool>, later: map<string, bool>, outcomes: set<string>,
                                         all: seq<Disposition>)
    requires n <= |values| && n <= |all| && ParseFirst(values, n, known, outcomes) == Ok(all[..n])
    ensures var again := ParseFirst(WrittenAll(all), n, later, outcomes);
            (again.Ok? <==> forall k :: 0 <= k < n ==> StillOpen(all[k], later)) && (again.Ok? ==> again.value == all[..n])
  {
    if n > 0 {
      var before := ParseFirst(values, n - 1, known, outcomes).value;
      assert all[..n] == before + [ParseOne(values[n - 1], known, outcomes, before).value];
      assert before == all[..n][..n - 1] == all[..n - 1];
      StoredReadIff(values, n - 1, known, later, outcomes, all);
      OneReadIff(values[n - 1], known, later, outcomes, before);
      assert all[n - 1] == all[..n][n - 1] && all[..n] == all[..n - 1] + [all[n - 1]];
    }
  }

  /** Whatever the log says later, and whatever task its events are attributed to then: a recorded checkpoint is accepted
      exactly if every signal that is mandatory then was explained in it, every event it disposed of is still a mandatory
      signal and no recurrence, and sources, head and content are as they must be. */
  lemma {:induction false} AcceptedIff<P>(s: Scene<P>, task: string, outcomes: set<string>, equivalent: (P, Option<P>) -> bool, x: Statement,
                                          later: Scene<P>, exact: bool)
    requires Record(s, task, outcomes, x).Ok? && IdsOf(s.log) <= IdsOf(later.log)
    ensures var c := Record(s, task, outcomes, x).value;
            Require(later, task, outcomes, equivalent, c, exact).None?
            == (&& (forall e :: e in later.log && IsMandatory(e, task) ==> Explained(e.id, c.eventIds, c.dispositions))
                && (forall d :: d in c.dispositions ==> StillOpen(d, Known(later.log, task)))
                && later.gaps <= c.accepted && later.head.Some? && (exact ==> c.head == later.head)
                && (if c.content.Some? then equivalent(c.content.value, later.content) else c.head == later.head))
  {
    var c := Record(s, task, outcomes, x).value;
    var n := |x.values|;
    ParsedCount(x.values, n, Known(s.log, task), outcomes);
    assert c.dispositions[..n] == c.dispositions;
    StoredReadIff(x.values, n, Known(s.log, task), Known(later.log, task), outcomes, c.dispositions);
    assert !(exists id :: id in c.eventIds && id !in IdsOf(later.log));
  }

  /** In particular at once: what was just recorded for the current head is accepted, dispositions and all. */
  lemma {:induction false} RecordedIsAccepted<P>(s: Scene<P>, task: string, outcomes: set<string>, equivalent: (P, Option<P>) -> bool, x: Statement,
                                                 exact: bool)
    requires Record(s, task, outcomes, x).Ok? && x.head.None? && s.head.Some?
    requires s.content.Some? ==> equivalent(s.content.value, s.content)
    ensures Require(s, task, outcomes, equivalent, Record(s, task, outcomes, x).value, exact).None?
  {
    assert s.log + [] == s.log;
    AcceptedLaterIff(s, task, outcomes, equivalent, x, [], s, exact);
  }
}
