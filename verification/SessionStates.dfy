/** The recorded state of an agent session: what each hook event makes of it, over every run of events. */
module SessionStates {
  import opened Results

  datatype State = Idle | Working | WaitingInput | WaitingPermission | LimitOrError | Ended | Unknown

  datatype Detail = NoDetail | Tool(tool: Option<string>) | Note(kind: string) | Failure(error: string) | Reason(reason: string)

  datatype Notice = PermissionPrompt | IdlePrompt(kind: string) | OtherNotice

  datatype Event =
    | SessionStart
    | UserPromptSubmit
    | PreToolUse(tool: Option<string>, asks: bool)
    | PostToolUse(tool: Option<string>)
    | PermissionRequest(tool: Option<string>)
    | Notification(notice: Notice)
    | Stop
    | StopFailure(error: string)
    | SessionEnd(reason: string)

  datatype Record = Record(state: State, detail: Detail, since: int, updated: int)

  /** The tool that a wait is for, where one is recorded. */
  function WaitingTool(d: Detail): Option<string> {
    if d.Tool? then d.tool else None
  }

  /** State and detail after an event; `asks` marks the tool that asks the user a question. */
  function Transition(previous: Option<Record>, e: Event): (State, Detail) {
    var state := if previous.Some? then previous.value.state else Unknown;
    var detail := if previous.Some? then previous.value.detail else NoDetail;
    match e
    case SessionStart => (Idle, NoDetail)
    case UserPromptSubmit => (Working, NoDetail)
    case PreToolUse(tool, asks) =>
      if asks then (WaitingInput, Tool(tool)) else if state.WaitingPermission? then (state, detail) else (Working, NoDetail)
    case PostToolUse(tool) =>
      if (state.WaitingPermission? || state.WaitingInput?) && WaitingTool(detail).Some? && tool != WaitingTool(detail) then (state, detail)
      else (Working, NoDetail)
    case PermissionRequest(tool) => (WaitingPermission, Tool(tool))
    case Notification(notice) =>
      (match notice
       case PermissionPrompt => (WaitingPermission, Tool(if state.WaitingPermission? then WaitingTool(detail) else None))
       case IdlePrompt(kind) => (WaitingInput, Note(kind))
       case OtherNotice => (state, detail))
    case Stop => (Idle, NoDetail)
    case StopFailure(error) => (LimitOrError, Failure(error))
    case SessionEnd(reason) => (Ended, Reason(reason))
  }

  function Next(previous: Option<Record>, e: Event, stamp: int): Record {
    var (state, detail) := Transition(previous, e);
    Record(state, detail, if previous.None? || previous.value.state != state then stamp else previous.value.since, stamp)
  }

  /** The session's file in the registry. */
  class SessionFile {
    var record: Option<Record>

    constructor ()
      ensures record.None?
    {
      record := None;
    }

    /** Applies one event under the file's lock. */
    method Ingest(e: Event, stamp: int)
      modifies this
      ensures record == Some(Next(old(record), e, stamp))
    {
      var (state, detail) := Transition(record, e);
      var since := stamp;
      if record.Some? && record.value.state == state { since := record.value.since; }
      record := Some(Record(state, detail, since, stamp));
    }
  }

  // ---- runs

  datatype Stamped = Stamped(event: Event, stamp: int)

  function Run(events: seq<Stamped>): Option<Record> {
    if events == [] then None
    else Some(Next(Run(events[..|events| - 1]), events[|events| - 1].event, events[|events| - 1].stamp))
  }

  /** The event at `k` brought the state that the run is in since. */
  ghost predicate Began(events: seq<Stamped>, k: nat)
    requires k < |events|
  {
    && Run(events[..k + 1]).Some? && (Run(events[..k]).Some? ==> Run(events[..k]).value.state != Run(events[..k + 1]).value.state)
    && forall m :: k < m <= |events| ==> Run(events[..m]).Some? && Run(events[..m]).value.state == Run(events[..k + 1]).value.state
  }

  /** Over every run, the time of the record is the time of the last change of state. */
  lemma {:induction false} SinceIsLastChange(events: seq<Stamped>) returns (k: nat)
    requires events != []
    ensures k < |events| && Began(events, k) && Run(events).Some? && Run(events).value.since == events[k].stamp
  {
    var n := |events| - 1;
    var before := events[..n];
    assert events[..n + 1] == events;
    if before == [] || Run(before).value.state != Run(events).value.state {
      k := n;
    } else {
      k := SinceIsLastChange(before);
      BeganStill(events, k);
    }
  }

  lemma {:induction false} BeganStill(events: seq<Stamped>, k: nat)
    requires events != [] && k < |events| - 1 && Began(events[..|events| - 1], k)
    requires Run(events).Some? && Run(events[..|events| - 1]).Some?
    requires Run(events).value.state == Run(events[..|events| - 1]).value.state
    ensures Began(events, k)
  {
    var before := events[..|events| - 1];
    assert before[..k] == events[..k] && before[..k + 1] == events[..k + 1];
    forall m | k < m <= |events| ensures Run(events[..m]).Some? && Run(events[..m]).value.state == Run(events[..k + 1]).value.state {
      if m < |events| { assert before[..m] == events[..m]; }
      else { assert events[..m] == events && before[..|before|] == before; }
    }
  }

  ghost predicate Waits(r: Option<Record>, tool: string) {
    r.Some? && r.value.state.WaitingPermission? && r.value.detail == Tool(Some(tool))
  }

  /** What leaves a permission wait for a known tool as it is. */
  predicate Leaves(e: Event, tool: string) {
    match e
    case PreToolUse(_, asks) => !asks
    case PostToolUse(t) => t != Some(tool)
    case PermissionRequest(t) => t == Some(tool)
    case Notification(notice) => !notice.IdlePrompt?
    case _ => false
  }

  lemma {:induction false} RunOn(events: seq<Stamped>, e: Stamped)
    ensures Run(events + [e]) == Some(Next(Run(events), e.event, e.stamp))
  {
    assert (events + [e])[..|events|] == events;
  }

  lemma {:induction false} LeavesIff(r: Option<Record>, e: Event, stamp: int, tool: string)
    requires Waits(r, tool)
    ensures Waits(Some(Next(r, e, stamp)), tool) <==> Leaves(e, tool)
    ensures Leaves(e, tool) ==> Next(r, e, stamp).since == r.value.since
  {
  }

  ghost predicate WaitsThrough(events: seq<Stamped>, more: seq<Stamped>, tool: string) {
    forall m :: 0 <= m <= |more| ==> Waits(Run(events + more[..m]), tool)
  }

  lemma {:induction false} ThroughNext(events: seq<Stamped>, front: seq<Stamped>, last: Stamped, tool: string)
    ensures WaitsThrough(events, front + [last], tool)
       <==> WaitsThrough(events, front, tool) && Waits(Run(events + (front + [last])), tool)
  {
    var more := front + [last];
    assert more[..|more|] == more;
    assert forall m :: 0 <= m <= |front| ==> front[..m] == more[..m];
  }

  /** Whatever the run before, a wait for a tool's permission stands after each of the further events, since the same
      time, if and only if each of them leaves it; completion of another tool is one that does. */
  lemma {:induction false} WaitGoesOnIff(events: seq<Stamped>, more: seq<Stamped>, tool: string)
    requires Waits(Run(events), tool)
    ensures WaitsThrough(events, more, tool) <==> forall k :: 0 <= k < |more| ==> Leaves(more[k].event, tool)
    ensures WaitsThrough(events, more, tool) ==> Run(events + more).Some? && Run(events + more).value.since == Run(events).value.since
    decreases |more|
  {
    if more == [] {
      assert events + more[..0] == events && events + more == events;
    } else {
      var front, last := more[..|more| - 1], more[|more| - 1];
      assert front + [last] == more && events + more == events + front + [last];
      WaitGoesOnIff(events, front, tool);
      ThroughNext(events, front, last, tool);
      RunOn(events + front, last);
      if WaitsThrough(events, front, tool) {
        assert front[..|front|] == front && Waits(Run(events + front[..|front|]), tool);
        LeavesIff(Run(events + front), last.event, last.stamp, tool);
      }
    }
  }

  /** Two ways in which a wait ends though its tool neither ran nor was refused: the agent asks the user a question and
      gets its answer, or a second tool asks for permission and runs. */
  lemma {:induction false} OtherToolEndsWait(events: seq<Stamped>, tool: string, other: string, opening: Event, stamp: int)
    requires Waits(Run(events), tool) && other != tool
    requires opening == PreToolUse(Some(other), true) || opening == PermissionRequest(Some(other))
    ensures var r := Run(events + [Stamped(opening, stamp), Stamped(PostToolUse(Some(other)), stamp)]);
            r.Some? && r.value.state.Working?
  {
    var a, b := Stamped(opening, stamp), Stamped(PostToolUse(Some(other)), stamp);
    RunOn(events, a);
    RunOn(events + [a], b);
    assert events + [a, b] == events + [a] + [b];
  }
}
