/** Intent dependencies: the coloured depth-first search for a cycle, and the check of a declared delivery order. */
module DependencyCycle {
  import opened Results

  /** The intents of one set in document order, each with the dependencies it declares. A dependency that is not an
      intent of the set is a dangling reference, reported elsewhere and no edge here. */
  datatype IntentSet = IntentSet(ids: seq<string>, deps: map<string, seq<string>>)

  ghost predicate Distinct(q: seq<string>) {
    forall i, j :: 0 <= i < j < |q| ==> q[i] != q[j]
  }

  ghost predicate Edge(g: IntentSet, a: string, b: string) {
    a in g.deps && b in g.deps && b in g.deps[a]
  }

  ghost predicate Walk(g: IntentSet, p: seq<string>) {
    && (forall i :: 0 <= i < |p| ==> p[i] in g.deps)
    && forall i :: 0 <= i < |p| - 1 ==> Edge(g, p[i], p[i + 1])
  }

  ghost predicate ClosedWalk(g: IntentSet, p: seq<string>) {
    |p| >= 2 && Walk(g, p) && p[0] == p[|p| - 1]
  }

  /** A closed walk that visits nothing twice but its end. */
  ghost predicate Cycle(g: IntentSet, p: seq<string>) {
    ClosedWalk(g, p) && Distinct(p[..|p| - 1])
  }

  ghost predicate Acyclic(g: IntentSet) {
    forall p :: !ClosedWalk(g, p)
  }

  function IndexOf(q: seq<string>, x: string): (i: nat)
    requires x in q
    ensures i < |q| && q[i] == x && x !in q[..i]
  {
    if q[0] == x then 0 else 1 + IndexOf(q[1..], x)
  }

  // ---- a finishing order proves acyclicity

  /** Every edge out of a listed intent leads to one listed earlier. */
  ghost predicate Finished(g: IntentSet, order: seq<string>) {
    forall i, y :: 0 <= i < |order| && Edge(g, order[i], y) ==> y in order[..i]
  }

  lemma {:induction false} WalkDescends(g: IntentSet, order: seq<string>, p: seq<string>)
    requires Finished(g, order) && Walk(g, p) && p != [] && p[0] in order
    ensures p[|p| - 1] in order
    ensures |p| > 1 ==> IndexOf(order, p[|p| - 1]) < IndexOf(order, p[0])
  {
    if |p| > 1 {
      var i := IndexOf(order, p[0]);
      assert Edge(g, p[0], p[1]);
      var k :| 0 <= k < i && order[k] == p[1];
      IndexIsFirst(order, p[1], k);
      WalkDescends(g, order, p[1..]);
    }
  }

  lemma {:induction false} IndexIsFirst(q: seq<string>, x: string, k: nat)
    requires k < |q| && q[k] == x
    ensures IndexOf(q, x) <= k
  {
    if q[0] != x { IndexIsFirst(q[1..], x, k - 1); }
  }

  lemma FinishedIsAcyclic(g: IntentSet, order: seq<string>)
    requires Finished(g, order) && forall x :: x in g.deps ==> x in order
    ensures Acyclic(g)
  {
    forall p | ClosedWalk(g, p) ensures false {
      assert p[0] in g.deps;
      WalkDescends(g, order, p);
    }
  }

  // ---- the search

  datatype Color = InProgress | Done

  /** In progress are exactly the intents on the path, a walk without repetition; done are exactly the finished ones. */
  ghost predicate Coloured(g: IntentSet, state: map<string, Color>, path: seq<string>, finished: seq<string>) {
    && state.Keys <= g.deps.Keys
    && Walk(g, path) && Distinct(path)
    && (forall x :: x in path <==> x in state && state[x] == InProgress)
    && (forall x :: x in finished <==> x in state && state[x] == Done)
    && Finished(g, finished)
  }

  lemma PushKeeps(g: IntentSet, state: map<string, Color>, path: seq<string>, finished: seq<string>, node: string)
    requires Coloured(g, state, path, finished) && node in g.deps && node !in state
    requires path != [] ==> Edge(g, path[|path| - 1], node)
    ensures Coloured(g, state[node := InProgress], path + [node], finished)
  {
    var longer := path + [node];
    forall i | 0 <= i < |longer| - 1 ensures Edge(g, longer[i], longer[i + 1]) {
      if i < |path| - 1 { assert Edge(g, path[i], path[i + 1]); }
    }
  }

  lemma FinishNext(g: IntentSet, finished: seq<string>, node: string)
    requires Finished(g, finished) && forall d :: Edge(g, node, d) ==> d in finished
    ensures Finished(g, finished + [node])
  {
    var longer := finished + [node];
    forall i, y | 0 <= i < |longer| && Edge(g, longer[i], y) ensures y in longer[..i] {
      assert longer[..i] == finished[..i];
    }
  }

  lemma PopKeeps(g: IntentSet, state: map<string, Color>, path: seq<string>, finished: seq<string>, node: string)
    requires Coloured(g, state, path + [node], finished)
    requires forall d :: Edge(g, node, d) ==> d in finished
    ensures Coloured(g, state[node := Done], path, finished + [node])
  {
    var longer := path + [node];
    FinishNext(g, finished, node);
    assert longer[|path|] == node;
    assert forall i :: 0 <= i < |path| ==> path[i] == longer[i];
    forall x ensures x in path <==> x in longer && x != node {}
    forall i | 0 <= i < |path| - 1 ensures Edge(g, path[i], path[i + 1]) {
      assert Edge(g, longer[i], longer[i + 1]);
    }
  }

  lemma PathClosesCycle(g: IntentSet, path: seq<string>, i: nat)
    requires Walk(g, path) && Distinct(path) && i < |path| && Edge(g, path[|path| - 1], path[i])
    ensures Cycle(g, path[i..] + [path[i]])
  {
    var p := path[i..] + [path[i]];
    assert p[..|p| - 1] == path[i..];
    forall k | 0 <= k < |p| - 1 ensures Edge(g, p[k], p[k + 1]) {
      assert p[k] == path[i + k];
      if k < |p| - 2 { assert Edge(g, path[i + k], path[i + k + 1]); }
    }
  }

  class CycleSearch {
    const g: IntentSet
    var state: map<string, Color>
    var path: seq<string>
    ghost var finished: seq<string>

    constructor (intents: IntentSet)
      ensures g == intents && Valid() && path == [] && state == map[]
    {
      g := intents;
      state := map[];
      path := [];
      finished := [];
    }

    ghost predicate Valid()
      reads this
    {
      Coloured(g, state, path, finished)
    }

    /** Colour everything reachable from `node`, or return a cycle met on the way. */
    method Visit(node: string) returns (found: Option<seq<string>>)
      requires Valid() && node in g.deps && node !in state
      requires path != [] ==> Edge(g, path[|path| - 1], node)
      modifies this
      ensures found.Some? ==> Cycle(g, found.value)
      ensures found.None? ==> Valid() && path == old(path) && node in finished
      ensures old(state.Keys) <= state.Keys
      ensures old(finished) <= finished
      decreases g.deps.Keys - state.Keys, 1
    {
      PushKeeps(g, state, path, finished, node);
      ghost var entered := path;
      state := state[node := InProgress];
      path := path + [node];
      var dependencies := g.deps[node];
      for k := 0 to |dependencies|
        invariant Valid() && path == entered + [node]
        invariant old(state.Keys) + {node} <= state.Keys && old(finished) <= finished
        invariant forall i :: 0 <= i < k && dependencies[i] in g.deps ==> dependencies[i] in finished
      {
        if dependencies[k] !in g.deps { continue; }
        found := Follow(dependencies[k]);
        if found.Some? { return; }
      }
      PopKeeps(g, state, entered, finished, node);
      path := path[..|path| - 1];
      assert path == entered;
      state := state[node := Done];
      finished := finished + [node];
      return None;
    }

    /** One dependency of the intent at the end of the path: close a cycle, descend, or pass over a finished one. */
    method Follow(dependency: string) returns (found: Option<seq<string>>)
      requires Valid() && path != [] && Edge(g, path[|path| - 1], dependency) && dependency in g.deps
      modifies this
      ensures found.Some? ==> Cycle(g, found.value)
      ensures found.None? ==> Valid() && path == old(path) && dependency in finished
      ensures old(state.Keys) <= state.Keys
      ensures old(finished) <= finished
      decreases g.deps.Keys - state.Keys, 2
    {
      if dependency in state && state[dependency] == InProgress {
        var i := IndexOf(path, dependency);
        PathClosesCycle(g, path, i);
        return Some(path[i..] + [dependency]);
      }
      if dependency !in state {
        found := Visit(dependency);
        return;
      }
      return None;
    }
  }

  /** The search is exact: an answer is a cycle of known intents, and no answer means there is none. */
  method FindCycle(g: IntentSet) returns (found: Option<seq<string>>)
    requires forall x :: x in g.deps <==> x in g.ids
    ensures found.Some? ==> Cycle(g, found.value)
    ensures found.None? <==> Acyclic(g)
  {
    var search := new CycleSearch(g);
    for k := 0 to |g.ids|
      invariant search.g == g && search.Valid() && search.path == [] && fresh(search)
      invariant forall i :: 0 <= i < k ==> g.ids[i] in search.finished
    {
      if g.ids[k] !in search.state {
        found := search.Visit(g.ids[k]);
        if found.Some? { return; }
      }
    }
    FinishedIsAcyclic(g, search.finished);
    return None;
  }

  // ---- delivery order

  datatype DeliveryError = NotEveryIntentOnce | NotReady(id: string) | BeforeDependency(id: string, dependency: string)

  /** The last position of each listed intent. */
  function Positions(order: seq<string>): (m: map<string, nat>)
    ensures forall x :: x in m <==> x in order
    ensures forall x :: x in m ==> m[x] < |order| && order[m[x]] == x
  {
    if order == [] then map[]
    else Positions(order[..|order| - 1])[order[|order| - 1] := |order| - 1]
  }

  ghost predicate EveryIntentOnce(g: IntentSet, order: seq<string>) {
    Distinct(order) && forall x :: x in order <==> x in g.deps
  }

  /** No intent is ordered before one of its dependencies. */
  ghost predicate InOrder(g: IntentSet, order: seq<string>) {
    forall x, d :: x in order && x in g.deps && d in g.deps[x] && d in order ==> Positions(order)[d] <= Positions(order)[x]
  }

  ghost predicate Accepted(g: IntentSet, ready: set<string>, order: seq<string>) {
    && EveryIntentOnce(g, order)
    && (forall x :: x in order && x in g.deps ==> x in ready)
    && InOrder(g, order)
  }

  /** What is wrong with the order as far as its first `k` entries show. */
  ghost predicate Fault(g: IntentSet, ready: set<string>, order: seq<string>, k: nat, e: DeliveryError)
    requires k <= |order|
  {
    match e
    case NotEveryIntentOnce => !EveryIntentOnce(g, order)
    case NotReady(x) => x in order[..k] && x in g.deps && x !in ready
    case BeforeDependency(x, d) =>
      x in order[..k] && x in g.deps && d in g.deps[x] && d in order && Positions(order)[d] > Positions(order)[x]
  }

  /** Reports every fault and nothing else; no report means the order is accepted. */
  method OrderErrors(g: IntentSet, ready: set<string>, order: seq<string>) returns (errors: seq<DeliveryError>)
    ensures forall e :: e in errors <==> Fault(g, ready, order, |order|, e)
    ensures errors == [] <==> Accepted(g, ready, order)
  {
    errors := [];
    var listed := set x | x in order;
    DistinctIffCardinal(order);
    assert listed == g.deps.Keys <==> forall x :: x in order <==> x in g.deps;
    if |order| != |listed| || listed != g.deps.Keys { errors := [NotEveryIntentOnce]; }
    var position := Positions(order);
    for k := 0 to |order|
      invariant forall e :: e in errors <==> Fault(g, ready, order, k, e)
    {
      var id := order[k];
      FaultsNext(g, ready, order, k);
      if id in g.deps {
        if id !in ready { errors := errors + [NotReady(id)]; }
        errors := MisplacedDependencies(id, g.deps[id], position, errors);
      }
    }
    NoFaultIffAccepted(g, ready, order);
    if errors != [] { assert errors[0] in errors; }
  }

  /** What the `k`-th entry adds to the faults. */
  lemma FaultsNext(g: IntentSet, ready: set<string>, order: seq<string>, k: nat)
    requires k < |order|
    ensures forall e :: Fault(g, ready, order, k + 1, e) <==>
              (Fault(g, ready, order, k, e)
               || (order[k] in g.deps && order[k] !in ready && e == NotReady(order[k]))
               || (order[k] in g.deps && Misplaced(order[k], g.deps[order[k]], Positions(order), e)))
  {
    assert order[..k + 1] == order[..k] + [order[k]];
  }

  lemma NoFaultIffAccepted(g: IntentSet, ready: set<string>, order: seq<string>)
    ensures (forall e :: !Fault(g, ready, order, |order|, e)) <==> Accepted(g, ready, order)
  {
    assert order[..|order|] == order;
    if forall e :: !Fault(g, ready, order, |order|, e) {
      assert !Fault(g, ready, order, |order|, NotEveryIntentOnce);
      forall x | x in order && x in g.deps ensures x in ready { assert !Fault(g, ready, order, |order|, NotReady(x)); }
      forall x, d | x in order && x in g.deps && d in g.deps[x] && d in order
        ensures Positions(order)[d] <= Positions(order)[x]
      {
        assert !Fault(g, ready, order, |order|, BeforeDependency(x, d));
      }
    }
  }

  ghost predicate Misplaced(id: string, dependencies: seq<string>, position: map<string, nat>, e: DeliveryError)
    requires id in position
  {
    e.BeforeDependency? && e.id == id && e.dependency in dependencies && e.dependency in position
    && position[e.dependency] > position[id]
  }

  method MisplacedDependencies(id: string, dependencies: seq<string>, position: map<string, nat>, before: seq<DeliveryError>)
    returns (errors: seq<DeliveryError>)
    requires id in position
    ensures forall e :: e in errors <==> (e in before || Misplaced(id, dependencies, position, e))
  {
    errors := before;
    for k := 0 to |dependencies|
      invariant forall e :: e in errors <==> (e in before || Misplaced(id, dependencies[..k], position, e))
    {
      var d := dependencies[k];
      assert dependencies[..k + 1] == dependencies[..k] + [d];
      if d in position && position[d] > position[id] { errors := errors + [BeforeDependency(id, d)]; }
    }
    assert dependencies[..|dependencies|] == dependencies;
  }

  lemma {:induction false} DistinctIffCardinal(q: seq<string>)
    ensures |set x | x in q| <= |q|
    ensures |set x | x in q| == |q| <==> Distinct(q)
  {
    if q != [] {
      var rest, last := q[..|q| - 1], q[|q| - 1];
      DistinctIffCardinal(rest);
      assert q == rest + [last];
      assert (set x | x in q) == (set x | x in rest) + {last};
      assert Distinct(q) <==> Distinct(rest) && last !in rest by {
        assert forall i :: 0 <= i < |rest| ==> rest[i] == q[i];
      }
      if last in rest { assert (set x | x in q) == (set x | x in rest); }
    }
  }

  // ---- what an accepted order says about cycles

  lemma PositionIsIndex(order: seq<string>, i: nat)
    requires Distinct(order) && i < |order|
    ensures order[i] in Positions(order) && Positions(order)[order[i]] == i
  {
    var x, k := order[i], Positions(order)[order[i]];
    assert order[k] == x;
  }

  /** `InOrder`, told by indices: every edge leads to the same or an earlier entry. */
  ghost predicate NoEdgeForward(g: IntentSet, order: seq<string>) {
    forall i, j :: 0 <= i < |order| && 0 <= j < |order| && Edge(g, order[i], order[j]) ==> j <= i
  }

  lemma InOrderByIndex(g: IntentSet, order: seq<string>)
    requires EveryIntentOnce(g, order)
    ensures InOrder(g, order) <==> NoEdgeForward(g, order)
  {
    if InOrder(g, order) {
      forall i, j | 0 <= i < |order| && 0 <= j < |order| && Edge(g, order[i], order[j]) ensures j <= i {
        PositionIsIndex(order, i);
        PositionIsIndex(order, j);
      }
    }
    if NoEdgeForward(g, order) {
      forall x, d | x in order && x in g.deps && d in g.deps[x] && d in order
        ensures Positions(order)[d] <= Positions(order)[x]
      {
        assert Edge(g, order[Positions(order)[x]], order[Positions(order)[d]]);
      }
    }
  }

  lemma {:induction false} WalkKeepsPlace(g: IntentSet, order: seq<string>, p: seq<string>, i: nat) returns (j: nat)
    requires EveryIntentOnce(g, order) && NoEdgeForward(g, order) && Walk(g, p) && p != []
    requires i < |order| && order[i] == p[0]
    ensures j <= i && order[j] == p[|p| - 1]
    ensures j == i ==> forall k :: 0 <= k < |p| ==> p[k] == p[0]
  {
    if |p| == 1 { j := i; }
    else {
      assert Edge(g, p[0], p[1]);
      var next :| 0 <= next < |order| && order[next] == p[1];
      j := WalkKeepsPlace(g, order, p[1..], next);
      assert forall k :: 1 <= k < |p| ==> p[k] == p[1..][k - 1];
    }
  }

  /** Under an accepted order the only cycles left are intents that depend on themselves. */
  lemma AcceptedCyclesAreSelfLoops(g: IntentSet, ready: set<string>, order: seq<string>, p: seq<string>)
    requires Accepted(g, ready, order) && ClosedWalk(g, p)
    ensures forall i :: 0 <= i < |p| ==> p[i] == p[0]
    ensures Edge(g, p[0], p[0])
    ensures Cycle(g, p) ==> p == [p[0], p[0]]
  {
    InOrderByIndex(g, order);
    var i :| 0 <= i < |order| && order[i] == p[0];
    var j := WalkKeepsPlace(g, order, p, i);
    assert Edge(g, p[0], p[1]);
    assert p[..|p| - 1][|p| - 2] == p[|p| - 2];
  }

  /** Every intent once, each ready, each strictly after everything it depends on. */
  ghost predicate LinearExtension(g: IntentSet, ready: set<string>, order: seq<string>) {
    && EveryIntentOnce(g, order)
    && (forall x :: x in g.deps ==> x in ready)
    && forall i, j :: 0 <= i < |order| && 0 <= j < |order| && Edge(g, order[i], order[j]) ==> j < i
  }

  lemma ExtensionIsAcyclic(g: IntentSet, ready: set<string>, order: seq<string>)
    requires LinearExtension(g, ready, order)
    ensures Acyclic(g)
  {
    forall i, y | 0 <= i < |order| && Edge(g, order[i], y) ensures y in order[..i] {
      assert y in order;
      var j :| 0 <= j < |order| && order[j] == y;
      assert order[..i][j] == y;
    }
    FinishedIsAcyclic(g, order);
  }

  lemma NoSelfLoop(g: IntentSet, x: string)
    requires Acyclic(g)
    ensures !Edge(g, x, x)
  {
    assert !ClosedWalk(g, [x, x]);
  }

  lemma AcceptedIsExtension(g: IntentSet, ready: set<string>, order: seq<string>)
    requires Accepted(g, ready, order) && Acyclic(g)
    ensures LinearExtension(g, ready, order)
  {
    InOrderByIndex(g, order);
    forall i, j | 0 <= i < |order| && 0 <= j < |order| && Edge(g, order[i], order[j]) ensures j < i {
      NoSelfLoop(g, order[i]);
    }
  }

  /** Accepted and free of cycles means exactly: a linear extension of the dependencies with every intent ready. */
  lemma AcceptedAndAcyclicIff(g: IntentSet, ready: set<string>, order: seq<string>)
    ensures Accepted(g, ready, order) && Acyclic(g) <==> LinearExtension(g, ready, order)
  {
    if Accepted(g, ready, order) && Acyclic(g) { AcceptedIsExtension(g, ready, order); }
    if LinearExtension(g, ready, order) {
      ExtensionIsAcyclic(g, ready, order);
      assert NoEdgeForward(g, order);
      InOrderByIndex(g, order);
    }
  }
}
