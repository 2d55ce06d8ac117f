/** From an approved design to an authoring handoff: what each command requires and writes, over runs in which anyone
    edits the documents in between. A digest is taken to be injective, so it stands for the content it was made of. */
module Handoffs {
  import opened Results
  import opened IntentSets
  import DC = DependencyCycle

  datatype Snapshot = Snapshot(source: string, projection: string, snapshotDigest: string, projectionDigest: string, shaped: bool)

  /** The normatively approved fields of a design; `shaped` says that the structural checks of the rest pass. */
  datatype Material = Material(addId: string, preparedBy: string, shaped: bool, elements: seq<Element>, openChoices: nat,
                               openContradictions: nat, snapshots: seq<Snapshot>, sources: set<string>, rest: string)

  datatype Digest = OfAdd(add: Material) | OfIntents(intents: IntentDocument) | OfEnvelope(body: Body)

  datatype Flag = Yes | No | NotBoolean

  datatype Receipt = NoReceipt | BadReceipt | Receipt(digest: Option<Digest>, dated: bool, approvedBy: string)

  datatype Add = Add(material: Material, approved: Flag, approval: Receipt)

  datatype IntentDocument = IntentDocument(addId: string, addDigest: Option<Digest>, shaped: bool, intents: seq<Intent>,
                                           dispositions: seq<string>, delivery: Delivery, snapshots: seq<Snapshot>, context: string)

  /** A handoff without its own digest. */
  datatype Body = Body(current: bool, createdAt: int, context: string, requirement: Option<string>, intentIds: seq<string>,
                       reason: Option<string>, intents: seq<Intent>, elements: seq<Element>, addDigest: Option<Digest>,
                       snapshots: seq<Snapshot>, boundAdd: Digest, boundIntents: Digest)

  datatype Envelope = Envelope(body: Body, digest: Option<Digest>)

  datatype Freshness = Fresh | Stale | Unknown

  /** The repository around the documents: which designs and snapshots it proves current. */
  datatype World = World(freshness: Material -> Freshness, current: Snapshot -> bool)

  // ---- validation

  predicate AddValid(add: Add) {
    && add.material.shaped && !add.approval.BadReceipt? && !add.approved.NotBoolean?
    && (add.approved.Yes? ==>
          && add.material.openChoices == 0 && add.material.openContradictions == 0
          && add.approval.Receipt? && add.approval.digest == Some(OfAdd(add.material)) && add.approval.dated)
  }

  /** Valid, approved, and proven current. */
  predicate Trusted(w: World, add: Add) {
    AddValid(add) && add.approved.Yes? && w.freshness(add.material).Fresh?
  }

  /** The snapshot entry of the design with this source and projection; the last one counts. */
  function Entry(snapshots: seq<Snapshot>, source: string, projection: string): Option<Snapshot> {
    if snapshots == [] then None
    else
      var last := snapshots[|snapshots| - 1];
      if last.source == source && last.projection == projection then Some(last)
      else Entry(snapshots[..|snapshots| - 1], source, projection)
  }

  predicate Recorded(s: Snapshot, m: Material) {
    var e := Entry(m.snapshots, s.source, s.projection);
    s.shaped && e.Some? && e.value.snapshotDigest == s.snapshotDigest && e.value.projectionDigest == s.projectionDigest
  }

  ghost predicate IntentsValid(w: World, d: IntentDocument, add: Add) {
    && d.shaped && d.addId == add.material.addId && Trusted(w, add)
    && d.addDigest.Some? && add.approval.Receipt? && d.addDigest == add.approval.digest
    && Acceptable(d.intents, d.dispositions, d.delivery, add.material.elements, add.material.sources)
    && forall s :: s in d.snapshots ==> Recorded(s, add.material) && w.current(s)
  }

  /** The intent of this id; the last one counts, as in a dictionary built in order. */
  function Find(intents: seq<Intent>, id: string): Option<Intent> {
    if intents == [] then None
    else if intents[|intents| - 1].id == id then Some(intents[|intents| - 1])
    else Find(intents[..|intents| - 1], id)
  }

  predicate IsReady(intents: seq<Intent>, id: string) {
    var x := Find(intents, id);
    x.Some? && x.value.ready
  }

  function Selected(intents: seq<Intent>, ids: seq<string>): seq<Intent>
    requires forall k :: 0 <= k < |ids| ==> Find(intents, ids[k]).Some?
  {
    seq(|ids|, k requires 0 <= k < |ids| => Find(intents, ids[k]).value)
  }

  function CoveredElements(elements: seq<Element>, selected: seq<Intent>): seq<Element> {
    if elements == [] then []
    else
      var front, last := elements[..|elements| - 1], elements[|elements| - 1];
      CoveredElements(front, selected) + if exists x :: x in selected && last.id in x.covers then [last] else []
  }

  // ---- the commands

  /** The documents, and what happened to them: who approved which content, and from what handoffs were prepared.
      `fold` is how two names are compared. */
  datatype State = State(world: World, add: Add, intents: Option<IntentDocument>, envelope: Option<Envelope>,
                         approvals: seq<Approval>, prepared: seq<(Material, IntentDocument, Body)>, fold: string -> string)

  datatype Approval = Approval(content: Material, approver: string, carried: bool)

  datatype Command =
    | Approve(approver: string)
    | Carry(from: string)
    | Decompose(context: string)
    | Prepare(ids: seq<string>, reason: Option<string>, requirement: Option<string>, at: int)
    | EditAdd(material: Material, approved: Flag)
    | EditIntents(document: IntentDocument)
    | EditEnvelope(body: Body)
    | WorldTurns(world: World)

  function Bound(s: State, approver: string, carried: bool): State {
    var add := Add(s.add.material, Yes, Receipt(Some(OfAdd(s.add.material)), true, approver));
    if AddValid(add) then s.(add := add, approvals := s.approvals + [Approval(s.add.material, approver, carried)]) else s
  }

  function Scaffold(s: State, context: string): IntentDocument
    requires s.add.approval.Receipt?
  {
    IntentDocument(s.add.material.addId, s.add.approval.digest, true, [], [], Default, s.add.material.snapshots, context)
  }

  ghost predicate Preparable(s: State, ids: seq<string>, reason: Option<string>) {
    && ids != [] && (|ids| > 1 ==> reason.Some?) && s.intents.Some?
    && Trusted(s.world, s.add) && IntentsValid(s.world, s.intents.value, s.add)
    && forall k :: 0 <= k < |ids| ==> IsReady(s.intents.value.intents, ids[k])
  }

  function PreparedBody(s: State, ids: seq<string>, reason: Option<string>, requirement: Option<string>, at: int): Body
    requires s.intents.Some? && s.add.approval.Receipt?
    requires forall k :: 0 <= k < |ids| ==> IsReady(s.intents.value.intents, ids[k])
  {
    assert forall k :: 0 <= k < |ids| ==> IsReady(s.intents.value.intents, ids[k]) ==> Find(s.intents.value.intents, ids[k]).Some?;
    var selected := Selected(s.intents.value.intents, ids);
    Body(true, at, s.intents.value.context, requirement, ids, reason, selected, CoveredElements(s.add.material.elements, selected),
         s.add.approval.digest, s.intents.value.snapshots, OfAdd(s.add.material), OfIntents(s.intents.value))
  }

  ghost function Apply(s: State, c: Command): State {
    match c
    case Approve(approver) =>
      if approver == [] || s.add.material.preparedBy == [] || s.fold(s.add.material.preparedBy) == s.fold(approver) then s
      else Bound(s, approver, false)
    case Carry(from) => Bound(s, from, true)
    case Decompose(context) =>
      if Trusted(s.world, s.add) && forall x :: x in s.add.material.snapshots ==> s.world.current(x) then
        s.(intents := Some(Scaffold(s, context))) else s
    case Prepare(ids, reason, requirement, at) =>
      if Preparable(s, ids, reason) then
        var body := PreparedBody(s, ids, reason, requirement, at);
        s.(envelope := Some(Envelope(body, Some(OfEnvelope(body)))),
           prepared := s.prepared + [(s.add.material, s.intents.value, body)])
      else s
    case EditAdd(material, approved) => s.(add := Add(material, approved, s.add.approval))
    case EditIntents(document) => s.(intents := Some(document))
    case EditEnvelope(body) => if s.envelope.Some? then s.(envelope := Some(Envelope(body, s.envelope.value.digest))) else s
    case WorldTurns(world) => s.(world := world)
  }

  ghost function Run(s: State, commands: seq<Command>): State {
    if commands == [] then s else Apply(Run(s, commands[..|commands| - 1]), commands[|commands| - 1])
  }

  /** A new design: neither approved nor decomposed. */
  predicate New(s: State) {
    s.add.approved.No? && s.add.approval.NoReceipt? && s.intents.None? && s.envelope.None? && s.approvals == [] && s.prepared == []
  }

  /** The verdict on the handoff against the documents as they are now. */
  ghost predicate ChecksFresh(s: State) {
    && s.envelope.Some? && s.intents.Some?
    && var body := s.envelope.value.body;
       && body.current && s.envelope.value.digest == Some(OfEnvelope(body))
       && Trusted(s.world, s.add) && body.boundAdd == OfAdd(s.add.material)
       && IntentsValid(s.world, s.intents.value, s.add) && body.boundIntents == OfIntents(s.intents.value)
       && (forall k :: 0 <= k < |body.intentIds| ==> IsReady(s.intents.value.intents, body.intentIds[k]))
       && forall x :: x in body.snapshots ==> s.world.current(x)
  }

  // ---- what every step keeps

  /** The receipt is the last approval given. */
  ghost predicate ReceiptIsLast(s: State) {
    match s.add.approval
    case NoReceipt => s.approvals == []
    case BadReceipt => false
    case Receipt(digest, dated, approver) =>
      && dated && s.approvals != []
      && digest == Some(OfAdd(s.approvals[|s.approvals| - 1].content)) && approver == s.approvals[|s.approvals| - 1].approver
  }

  /** Nothing was approved malformed or with an open question, and nobody approved their own design. */
  ghost predicate ApprovalsSound(s: State) {
    forall k :: 0 <= k < |s.approvals| ==>
      && s.approvals[k].content.shaped && s.approvals[k].content.openChoices == 0 && s.approvals[k].content.openContradictions == 0
      && (!s.approvals[k].carried ==> s.fold(s.approvals[k].approver) != s.fold(s.approvals[k].content.preparedBy))
  }

  /** What a preparation recorded: the digests of its sources, and intents that were ready in them. */
  ghost predicate PreparedFits(add: Material, d: IntentDocument, body: Body) {
    && body.current && body.boundAdd == OfAdd(add) && body.boundIntents == OfIntents(d) && body.snapshots == d.snapshots
    && forall k :: 0 <= k < |body.intentIds| ==> IsReady(d.intents, body.intentIds[k])
  }

  /** The handoff's own digest is that of the last one prepared. */
  ghost predicate SealIsLast(s: State) {
    && (forall k :: 0 <= k < |s.prepared| ==> PreparedFits(s.prepared[k].0, s.prepared[k].1, s.prepared[k].2))
    && (s.envelope.Some? ==> s.prepared != [] && s.envelope.value.digest == Some(OfEnvelope(s.prepared[|s.prepared| - 1].2)))
  }

  ghost predicate Sound(s: State) {
    ReceiptIsLast(s) && ApprovalsSound(s) && SealIsLast(s)
  }

  lemma {:induction false} StepKeeps(s: State, c: Command)
    requires Sound(s)
    ensures Sound(Apply(s, c))
  {
  }

  lemma {:induction false} RunKeeps(s: State, commands: seq<Command>)
    requires New(s)
    ensures Sound(Run(s, commands))
  {
    if commands != [] {
      RunKeeps(s, commands[..|commands| - 1]);
      StepKeeps(Run(s, commands[..|commands| - 1]), commands[|commands| - 1]);
    }
  }

  /** Over every run: a design marked approved validates if and only if its content is that of the last approval given,
      to the letter; and then it had no open choice and no open contradiction. */
  lemma {:induction false} ApprovedIff(s: State, commands: seq<Command>)
    requires New(s)
    ensures var t := Run(s, commands);
            t.add.approved.Yes? ==>
              && (AddValid(t.add) <==> t.approvals != [] && t.approvals[|t.approvals| - 1].content == t.add.material)
              && (AddValid(t.add) ==> t.add.material.openChoices == 0 && t.add.material.openContradictions == 0)
  {
    RunKeeps(s, commands);
  }

  /** The handoff is the last one prepared, and the design and the intents are what they were then. */
  ghost predicate Untouched(s: State) {
    && s.envelope.Some? && s.intents.Some? && s.prepared != []
    && s.prepared[|s.prepared| - 1] == (s.add.material, s.intents.value, s.envelope.value.body)
  }

  /** Over every run: a handoff checks fresh if and only if it is, in every byte, the last one prepared, the design and
      the intents are what they were then, and both still pass as they would for a new one. */
  lemma {:induction false} FreshIff(s: State, commands: seq<Command>)
    requires New(s)
    ensures var t := Run(s, commands);
            ChecksFresh(t) <==> Untouched(t) && Trusted(t.world, t.add) && IntentsValid(t.world, t.intents.value, t.add)
  {
    RunKeeps(s, commands);
    SoundFreshIff(Run(s, commands));
  }

  lemma {:induction false} SoundFreshIff(t: State)
    requires Sound(t)
    ensures ChecksFresh(t) <==> Untouched(t) && Trusted(t.world, t.add) && IntentsValid(t.world, t.intents.value, t.add)
  {
    if t.prepared != [] {
      var last := t.prepared[|t.prepared| - 1];
      assert PreparedFits(last.0, last.1, last.2);
    }
  }

  /** In particular one just prepared does. */
  lemma {:induction false} PreparedIsFresh(s: State, commands: seq<Command>, c: Command)
    requires New(s) && c.Prepare? && Preparable(Run(s, commands), c.ids, c.reason)
    ensures ChecksFresh(Run(s, commands + [c]))
  {
    assert (commands + [c])[..|commands|] == commands;
    FreshIff(s, commands + [c]);
  }

  /** What a fresh handoff says of the work: the selected intents are ready and unblocked, no dependency loops, and no
      new or changed element of the design was forgotten. */
  lemma {:induction false} FreshIsWorkable(s: State)
    requires ChecksFresh(s)
    ensures var d := s.intents.value;
            && Complete(d.intents, d.dispositions, s.add.material.elements) && DC.Acyclic(Graph(d.intents))
            && forall k :: 0 <= k < |s.envelope.value.body.intentIds| ==>
                 var x := Find(d.intents, s.envelope.value.body.intentIds[k]); x.Some? && x.value.ready && x.value.blocker.None?
  {
    var d := s.intents.value;
    forall k | 0 <= k < |s.envelope.value.body.intentIds|
      ensures var x := Find(d.intents, s.envelope.value.body.intentIds[k]); x.Some? && x.value.ready && x.value.blocker.None?
    {
      FoundIsListed(d.intents, s.envelope.value.body.intentIds[k]);
    }
  }

  lemma {:induction false} FoundIsListed(intents: seq<Intent>, id: string)
    ensures Find(intents, id).Some? ==> Find(intents, id).value in intents
  {
    if intents != [] { FoundIsListed(intents[..|intents| - 1], id); }
  }
}
