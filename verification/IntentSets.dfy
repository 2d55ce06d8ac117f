/** What makes a set of intents acceptable for the design it was decomposed from, and the check of it, loop by loop. */
module IntentSets {
  import opened Results
  import DC = DependencyCycle

  datatype Element = Element(id: string, required: bool, body: string)

  /** An intent; `reason` is its non-blank reason for covering what another covers too, if it gives one. */
  datatype Intent = Intent(id: string, covers: seq<string>, deps: seq<string>, refs: seq<string>, ready: bool,
                           blocker: Option<string>, reason: Option<string>, body: string)

  datatype Delivery = Default | Malformed | Sequential(order: seq<string>)

  function Ids(intents: seq<Intent>): (r: seq<string>)
    ensures |r| == |intents| && forall k :: 0 <= k < |r| ==> r[k] == intents[k].id
  {
    seq(|intents|, k requires 0 <= k < |intents| => intents[k].id)
  }

  function KnownIds(elements: seq<Element>): set<string> {
    set x | x in elements :: x.id
  }

  /** New and changed elements, which need coverage. */
  function RequiredIds(elements: seq<Element>): set<string> {
    set x | x in elements && x.required :: x.id
  }

  function Times(q: seq<string>, x: string): nat {
    if q == [] then 0 else Times(q[..|q| - 1], x) + if q[|q| - 1] == x then 1 else 0
  }

  /** How often the intents name the element in their coverage. */
  function Covered(intents: seq<Intent>, element: string): nat {
    if intents == [] then 0 else Covered(intents[..|intents| - 1], element) + Times(intents[|intents| - 1].covers, element)
  }

  /** The dependencies of each id; the first intent of an id counts. */
  function DepsOf(intents: seq<Intent>): (m: map<string, seq<string>>)
    ensures forall x :: x in m <==> x in Ids(intents)
  {
    if intents == [] then map[]
    else
      var front, last := DepsOf(intents[..|intents| - 1]), intents[|intents| - 1];
      assert Ids(intents) == Ids(intents[..|intents| - 1]) + [last.id];
      if last.id in front then front else front[last.id := last.deps]
  }

  lemma {:induction false} DepsAre(intents: seq<Intent>, k: nat)
    requires DistinctIds(intents) && k < |intents|
    ensures DepsOf(intents)[intents[k].id] == intents[k].deps
  {
    var front, last := intents[..|intents| - 1], intents[|intents| - 1];
    if k < |front| { DepsAre(front, k); }
  }

  /** Who depends on whom. */
  function Graph(intents: seq<Intent>): DC.IntentSet {
    DC.IntentSet(Ids(intents), DepsOf(intents))
  }

  function ReadyIds(intents: seq<Intent>): set<string> {
    set x | x in intents && x.ready :: x.id
  }

  // ---- acceptable

  ghost predicate DistinctIds(intents: seq<Intent>) {
    forall i, j :: 0 <= i < j < |intents| ==> intents[i].id != intents[j].id
  }

  ghost predicate Referenced(intents: seq<Intent>, elements: seq<Element>, sources: set<string>) {
    forall x :: x in intents ==> IsReferenced(x, Ids(intents), KnownIds(elements), sources)
  }

  /** Nothing the intent refers to is missing. */
  ghost predicate IsReferenced(x: Intent, ids: seq<string>, known: set<string>, sources: set<string>) {
    && (forall d :: d in x.deps ==> d in ids) && (forall c :: c in x.covers ==> c in known) && forall r :: r in x.refs ==> r in sources
  }

  /** Whoever shares an element with another intent, or names it twice, says why. */
  ghost predicate OverlapsExplained(intents: seq<Intent>) {
    forall c, x :: x in intents && c in x.covers && Covered(intents, c) > 1 ==> x.reason.Some?
  }

  /** Every new or changed element is covered by an intent or has a recorded disposition. */
  ghost predicate Complete(intents: seq<Intent>, dispositions: seq<string>, elements: seq<Element>) {
    forall c :: c in RequiredIds(elements) ==> c in dispositions || exists x :: x in intents && c in x.covers
  }

  ghost predicate Deliverable(intents: seq<Intent>, delivery: Delivery) {
    match delivery
    case Default => true
    case Malformed => false
    case Sequential(order) => DC.Accepted(Graph(intents), ReadyIds(intents), order)
  }

  ghost predicate Unblocked(intents: seq<Intent>) {
    forall x :: x in intents && x.ready ==> x.blocker.None?
  }

  ghost predicate Acceptable(intents: seq<Intent>, dispositions: seq<string>, delivery: Delivery, elements: seq<Element>,
                             sources: set<string>) {
    && DistinctIds(intents) && Referenced(intents, elements, sources) && DC.Acyclic(Graph(intents))
    && OverlapsExplained(intents) && (forall c :: c in dispositions ==> c in KnownIds(elements))
    && Complete(intents, dispositions, elements) && Deliverable(intents, delivery) && Unblocked(intents)
  }

  // ---- the check

  datatype Fault = DuplicateId | UnknownReference | DependencyLoop | UnexplainedOverlap | UnknownDisposition | Uncovered | BadDelivery
                 | BlockedButReady

  /** The first intent of each id; and for each element the ids that cover it, in order. */
  method Index(intents: seq<Intent>) returns (distinct: bool, kept: seq<Intent>, owners: map<string, seq<string>>)
    ensures distinct <==> DistinctIds(intents)
    ensures distinct ==> kept == intents
    ensures Owning(kept, owners)
  {
    var seen: set<string> := {};
    distinct, kept, owners := true, [], map[];
    for k := 0 to |intents|
      invariant distinct <==> DistinctIds(intents[..k])
      invariant distinct ==> kept == intents[..k]
      invariant seen == (set x | x in kept :: x.id) && Owning(kept, owners)
    {
      var item := intents[k];
      DistinctNext(intents, k);
      assert intents[..k + 1] == intents[..k] + [item];
      if item.id in seen {
        distinct := false;
      } else {
        seen := seen + {item.id};
        owners := AddOwner(owners, kept, item);
        kept := kept + [item];
      }
    }
    assert intents[..|intents|] == intents;
  }

  lemma {:induction false} DistinctNext(intents: seq<Intent>, k: nat)
    requires k < |intents|
    ensures DistinctIds(intents[..k + 1])
       <==> DistinctIds(intents[..k]) && intents[k].id !in (set x | x in intents[..k] :: x.id)
  {
    if DistinctIds(intents[..k]) && intents[k].id !in (set x | x in intents[..k] :: x.id) {
      forall i, j | 0 <= i < j < k + 1 ensures intents[i].id != intents[j].id {
        if j == k { assert intents[..k][i] in intents[..k]; }
      }
    }
    if DistinctIds(intents[..k + 1]) {
      forall i | 0 <= i < k ensures intents[i].id != intents[k].id {
        assert intents[..k + 1][i] == intents[i] && intents[..k + 1][k] == intents[k];
      }
      forall i, j | 0 <= i < j < k ensures intents[..k][i].id != intents[..k][j].id {
        assert intents[..k + 1][i].id != intents[..k + 1][j].id;
      }
    }
  }

  /** The owners of an element: as many as there are coverings, and exactly the intents that cover it. */
  ghost predicate Owning(intents: seq<Intent>, owners: map<string, seq<string>>) {
    forall c :: OwningOne(intents, c, OwnersIn(owners, c))
  }

  ghost predicate OwningOne(intents: seq<Intent>, c: string, ids: seq<string>) {
    |ids| == Covered(intents, c) && forall x :: x in intents && c in x.covers ==> x.id in ids
  }

  function OwnersIn(owners: map<string, seq<string>>, c: string): seq<string> {
    if c in owners then owners[c] else []
  }

  method AddOwner(owners: map<string, seq<string>>, ghost before: seq<Intent>, item: Intent) returns (more: map<string, seq<string>>)
    requires Owning(before, owners)
    ensures Owning(before + [item], more)
  {
    more := owners;
    for j := 0 to |item.covers|
      invariant forall c :: OwningSome(before, item, j, c, OwnersIn(more, c))
    {
      ghost var was := more;
      more := more[item.covers[j] := OwnersIn(more, item.covers[j]) + [item.id]];
      forall c ensures OwningSome(before, item, j + 1, c, OwnersIn(more, c)) {
        OwningNext(before, item, j, c, OwnersIn(was, c));
      }
    }
    forall c ensures OwningOne(before + [item], c, OwnersIn(more, c)) {
      assert (before + [item])[..|before|] == before && item.covers[..|item.covers|] == item.covers;
      assert OwningSome(before, item, |item.covers|, c, OwnersIn(more, c));
    }
  }

  lemma {:induction false} OwningNext(before: seq<Intent>, item: Intent, j: nat, c: string, ids: seq<string>)
    requires j < |item.covers| && OwningSome(before, item, j, c, ids)
    ensures OwningSome(before, item, j + 1, c, if c == item.covers[j] then ids + [item.id] else ids)
  {
    assert item.covers[..j + 1] == item.covers[..j] + [item.covers[j]];
  }

  /** While the coverings of one intent are being added. */
  ghost predicate OwningSome(before: seq<Intent>, item: Intent, j: nat, c: string, ids: seq<string>)
    requires j <= |item.covers|
  {
    && |ids| == Covered(before, c) + Times(item.covers[..j], c)
    && (forall x :: x in before && c in x.covers ==> x.id in ids) && (c in item.covers[..j] ==> item.id in ids)
  }

  lemma {:induction false} CoveredIff(intents: seq<Intent>, c: string)
    ensures Covered(intents, c) > 0 <==> exists x :: x in intents && c in x.covers
  {
    if intents != [] {
      var front, last := intents[..|intents| - 1], intents[|intents| - 1];
      CoveredIff(front, c);
      TimesIff(last.covers, c);
      assert intents == front + [last];
    }
  }

  lemma {:induction false} TimesIff(q: seq<string>, c: string)
    ensures Times(q, c) > 0 <==> c in q
  {
    if q != [] {
      TimesIff(q[..|q| - 1], c);
      assert q == q[..|q| - 1] + [q[|q| - 1]];
    }
  }

  /** Accepts exactly the acceptable sets; an unacceptable one is refused with the faults the loops found. */
  method Check(intents: seq<Intent>, dispositions: seq<string>, delivery: Delivery, elements: seq<Element>, sources: set<string>)
    returns (faults: seq<Fault>)
    ensures faults == [] <==> Acceptable(intents, dispositions, delivery, elements, sources)
  {
    var distinct, kept, owners := Index(intents);
    faults := if distinct then [] else [DuplicateId];
    var known := KnownIds(elements);
    var referenced := CheckReferences(kept, known, sources);
    if !referenced { faults := faults + [UnknownReference]; }
    var cycle := DC.FindCycle(Graph(kept));
    if cycle.Some? { faults := faults + [DependencyLoop]; }
    var explained := CheckOverlaps(kept, owners);
    if !explained { faults := faults + [UnexplainedOverlap]; }
    if exists c :: c in dispositions && c !in known { faults := faults + [UnknownDisposition]; }
    var complete := CheckCoverage(kept, dispositions, elements, owners);
    if !complete { faults := faults + [Uncovered]; }
    if delivery.Malformed? {
      faults := faults + [BadDelivery];
    } else if delivery.Sequential? {
      var errors := DC.OrderErrors(Graph(kept), ReadyIds(kept), delivery.order);
      if errors != [] { faults := faults + [BadDelivery]; }
    }
    if exists x :: x in kept && x.ready && x.blocker.Some? { faults := faults + [BlockedButReady]; }
  }

  method CheckReferences(intents: seq<Intent>, known: set<string>, sources: set<string>) returns (ok: bool)
    ensures ok <==> forall x :: x in intents ==> IsReferenced(x, Ids(intents), known, sources)
  {
    var ids := Ids(intents);
    for k := 0 to |intents|
      invariant forall i :: 0 <= i < k ==> IsReferenced(intents[i], ids, known, sources)
    {
      var item := intents[k];
      if (exists d :: d in item.deps && d !in ids) || (exists c :: c in item.covers && c !in known)
         || exists r :: r in item.refs && r !in sources {
        assert item in intents && !IsReferenced(item, ids, known, sources);
        return false;
      }
    }
    return true;
  }

  method CheckOverlaps(intents: seq<Intent>, owners: map<string, seq<string>>) returns (ok: bool)
    requires Owning(intents, owners)
    ensures ok <==> OverlapsExplained(intents)
  {
    for k := 0 to |intents|
      invariant forall i, c :: 0 <= i < k && c in intents[i].covers && Covered(intents, c) > 1 ==> intents[i].reason.Some?
    {
      var item := intents[k];
      for j := 0 to |item.covers|
        invariant forall m :: 0 <= m < j && Covered(intents, item.covers[m]) > 1 ==> item.reason.Some?
      {
        var c := item.covers[j];
        assert OwningOne(intents, c, OwnersIn(owners, c));
        CoveredIff(intents, c);
        if c in owners && |owners[c]| > 1 && item.reason.None? {
          assert item in intents && c in item.covers;
          return false;
        }
      }
    }
    return true;
  }

  method CheckCoverage(intents: seq<Intent>, dispositions: seq<string>, elements: seq<Element>, owners: map<string, seq<string>>)
    returns (ok: bool)
    requires Owning(intents, owners)
    ensures ok <==> Complete(intents, dispositions, elements)
  {
    for k := 0 to |elements|
      invariant forall i :: 0 <= i < k && elements[i].required ==>
                  elements[i].id in dispositions || exists x :: x in intents && elements[i].id in x.covers
    {
      var c := elements[k].id;
      CoveredIff(intents, c);
      assert OwningOne(intents, c, OwnersIn(owners, c));
      if elements[k].required && c !in dispositions && (c !in owners || owners[c] == []) {
        assert elements[k] in elements;
        return false;
      }
    }
    return true;
  }
}
