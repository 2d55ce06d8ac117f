/** The lifecycle schema: stages numbered without gaps, transitions that lead forward unless they return, boxes laid out
    in two rows that turn at the end, and the routes the drawing can take. */
module SchemaLayout {
  import opened Results

  datatype Kind = Main | Conditional | Return

  datatype Transition = Transition(to: string, kind: Kind)

  datatype Stage = Stage(id: string, order: int, transitions: seq<Transition>, children: seq<string>)

  /** The target that ends the lifecycle. */
  const STOP := "stop"

  // ---- linking

  datatype LinkError = Duplicate(order: int) | NotContiguous(expected: int) | NotOnMap(ids: set<string>) | NoStage(ids: set<string>)
                     | StopReturns(from: string) | UnknownStage(to: string) | SelfTransition(id: string)
                     | WrongDirection(from: string, to: string) | UnknownNode(id: string) | OwnChild(id: string) | WrongKind(id: string)

  ghost predicate DistinctIds(stages: seq<Stage>) {
    forall i, j :: 0 <= i < j < |stages| ==> stages[i].id != stages[j].id
  }

  ghost predicate Ordered(stages: seq<Stage>) {
    forall i, j :: 0 <= i < j < |stages| ==> stages[i].order <= stages[j].order
  }

  /** The order of the stage of this id. */
  function OrderOf(stages: seq<Stage>, id: string): Option<int> {
    if stages == [] then None else if stages[0].id == id then Some(stages[0].order) else OrderOf(stages[1..], id)
  }

  /** The transition ends the lifecycle, or leads to another stage, back if it is a return and on if it is not. */
  predicate Directed(stages: seq<Stage>, from: Stage, t: Transition) {
    if t.to == STOP then !t.kind.Return?
    else
      && t.to != from.id && OrderOf(stages, t.to).Some?
      && (t.kind.Return? <==> OrderOf(stages, t.to).value < from.order)
  }

  /** The child is another node, a mechanism or a part; `kinds` tells the kind of every node. */
  predicate IsChild(kinds: map<string, string>, parent: Stage, child: string) {
    child in kinds && child != parent.id && (kinds[child] == "mechanism" || kinds[child] == "part")
  }

  ghost predicate Numbered(stages: seq<Stage>) {
    forall k :: 0 <= k < |stages| ==> stages[k].order == k + 1
  }

  function Ids(stages: seq<Stage>): set<string> {
    set s | s in stages :: s.id
  }

  ghost predicate StageLinked(stages: seq<Stage>, kinds: map<string, string>, from: Stage) {
    && (forall j :: 0 <= j < |from.transitions| ==> Directed(stages, from, from.transitions[j]))
    && forall j :: 0 <= j < |from.children| ==> IsChild(kinds, from, from.children[j])
  }

  ghost predicate Linked(stages: seq<Stage>, onMap: set<string>, kinds: map<string, string>) {
    && Numbered(stages) && Ids(stages) == onMap
    && forall k :: 0 <= k < |stages| ==> StageLinked(stages, kinds, stages[k])
  }

  method LinkTransitions(stages: seq<Stage>, from: Stage) returns (error: Option<LinkError>)
    ensures error.None? <==> forall j :: 0 <= j < |from.transitions| ==> Directed(stages, from, from.transitions[j])
  {
    for j := 0 to |from.transitions|
      invariant forall m :: 0 <= m < j ==> Directed(stages, from, from.transitions[m])
    {
      var t := from.transitions[j];
      if t.to == STOP {
        if t.kind.Return? { return Some(StopReturns(from.id)); }
        continue;
      }
      var target := OrderOf(stages, t.to);
      if target.None? { return Some(UnknownStage(t.to)); }
      if t.to == from.id { return Some(SelfTransition(t.to)); }
      var backward := target.value < from.order;
      if t.kind.Return? != backward {
        assert !Directed(stages, from, t);
        return Some(WrongDirection(from.id, t.to));
      }
    }
    return None;
  }

  method LinkChildren(kinds: map<string, string>, from: Stage) returns (error: Option<LinkError>)
    ensures error.None? <==> forall j :: 0 <= j < |from.children| ==> IsChild(kinds, from, from.children[j])
  {
    for j := 0 to |from.children|
      invariant forall m :: 0 <= m < j ==> IsChild(kinds, from, from.children[m])
    {
      var child := from.children[j];
      if child !in kinds { return Some(UnknownNode(child)); }
      if child == from.id { return Some(OwnChild(child)); }
      if kinds[child] != "mechanism" && kinds[child] != "part" { return Some(WrongKind(child)); }
    }
    return None;
  }

  /** Accepts the stages, sorted by order, exactly when they are numbered from one without gaps, are those of the map,
      every transition leads where its kind says, and every child is a mechanism or a part. */
  method LinkStages(stages: seq<Stage>, onMap: set<string>, kinds: map<string, string>) returns (error: Option<LinkError>)
    requires Ordered(stages)
    ensures error.None? <==> Linked(stages, onMap, kinds)
  {
    for k := 0 to |stages|
      invariant forall i :: 0 <= i < k ==> stages[i].order == i + 1
    {
      if exists i :: 0 <= i < |stages| && i != k && stages[i].order == stages[k].order {
        SameOrder(stages, k);
        return Some(Duplicate(stages[k].order));
      }
      if stages[k].order != k + 1 { return Some(NotContiguous(k + 1)); }
    }
    if Ids(stages) - onMap != {} { return Some(NotOnMap(Ids(stages) - onMap)); }
    if onMap - Ids(stages) != {} { return Some(NoStage(onMap - Ids(stages))); }
    for k := 0 to |stages|
      invariant forall i :: 0 <= i < k ==> StageLinked(stages, kinds, stages[i])
    {
      error := LinkTransitions(stages, stages[k]);
      if error.Some? { assert !StageLinked(stages, kinds, stages[k]); return; }
      error := LinkChildren(kinds, stages[k]);
      if error.Some? { assert !StageLinked(stages, kinds, stages[k]); return; }
    }
    return None;
  }

  lemma {:induction false} SameOrder(stages: seq<Stage>, k: nat)
    requires k < |stages| && exists i :: 0 <= i < |stages| && i != k && stages[i].order == stages[k].order
    ensures !Numbered(stages)
  {
    var i :| 0 <= i < |stages| && i != k && stages[i].order == stages[k].order;
  }

  /** A walk along transitions that are no returns. */
  ghost predicate Forward(stages: seq<Stage>, walk: seq<nat>) {
    && (forall k :: 0 <= k < |walk| ==> walk[k] < |stages|)
    && forall k :: 0 <= k < |walk| - 1 ==> Leads(stages, walk[k], walk[k + 1])
  }

  ghost predicate Leads(stages: seq<Stage>, a: nat, b: nat)
    requires a < |stages| && b < |stages|
  {
    exists j :: 0 <= j < |stages[a].transitions| && Onward(stages[a].transitions[j], stages[b].id)
  }

  /** No return and no stop. */
  predicate Onward(t: Transition, id: string) {
    !t.kind.Return? && t.to != STOP && t.to == id
  }

  lemma {:induction false} OrderOfIs(stages: seq<Stage>, b: nat)
    requires DistinctIds(stages) && b < |stages|
    ensures OrderOf(stages, stages[b].id) == Some(stages[b].order)
  {
    if b > 0 {
      assert stages[0].id != stages[b].id;
      OrderOfIs(stages[1..], b - 1);
    }
  }

  lemma {:induction false} LeadsOn(stages: seq<Stage>, a: nat, b: nat)
    requires Numbered(stages) && DistinctIds(stages) && a < |stages| && b < |stages| && Leads(stages, a, b)
    requires forall j :: 0 <= j < |stages[a].transitions| ==> Directed(stages, stages[a], stages[a].transitions[j])
    ensures a < b
  {
    var j :| 0 <= j < |stages[a].transitions| && Onward(stages[a].transitions[j], stages[b].id);
    OrderOfIs(stages, b);
    assert Directed(stages, stages[a], stages[a].transitions[j]);
    if a == b { OrderOfIs(stages, a); }
  }

  /** Every forward walk strictly increases the stage order, so it ends: it has at most as many stages as there are. */
  lemma {:induction false} ForwardEnds(stages: seq<Stage>, onMap: set<string>, kinds: map<string, string>, walk: seq<nat>)
    requires Linked(stages, onMap, kinds) && DistinctIds(stages) && Forward(stages, walk)
    ensures forall k :: 0 <= k < |walk| - 1 ==> stages[walk[k]].order < stages[walk[k + 1]].order
    ensures |walk| <= |stages|
  {
    forall k | 0 <= k < |walk| - 1 ensures walk[k] < walk[k + 1] {
      assert StageLinked(stages, kinds, stages[walk[k]]);
      LeadsOn(stages, walk[k], walk[k + 1]);
    }
    if walk != [] { Climbs(walk, |walk| - 1); }
  }

  lemma {:induction false} Climbs(walk: seq<nat>, k: nat)
    requires k < |walk| && forall i :: 0 <= i < |walk| - 1 ==> walk[i] < walk[i + 1]
    ensures walk[k] >= k
  {
    if k > 0 { Climbs(walk, k - 1); }
  }

  // ---- geometry

  const BoxW := 194
  const BoxH := 76
  const ColX := 28
  const ColPitch := 240
  const TopY := 94
  const BottomY := 260
  const Height := 420

  datatype Box = Box(x: int, y: int, row: nat, column: nat)

  function Columns(count: nat): nat {
    (count + 1) / 2
  }

  function Width(count: nat): int {
    ColX * 2 + (Columns(count) - 1) * ColPitch + BoxW + 10
  }

  /** The first half of the stages from left to right, the others from right to left below them. */
  function PlaceOf(count: nat, order: nat): Box
    requires 1 <= order <= count
  {
    var c := Columns(count);
    if order <= c then Box(ColX + (order - 1) * ColPitch, TopY, 0, order - 1)
    else Box(ColX + (2 * c - order) * ColPitch, BottomY, 1, 2 * c - order)
  }

  /** The boxes as the loop fills them in. */
  method Place(count: nat) returns (columns: nat, placed: map<nat, Box>)
    ensures columns == Columns(count)
    ensures forall order: nat :: order in placed <==> 1 <= order <= count
    ensures forall order :: order in placed ==> placed[order] == PlaceOf(count, order)
  {
    columns, placed := Columns(count), map[];
    for order := 1 to count + 1
      invariant forall k: nat :: k in placed <==> 1 <= k < order
      invariant forall k :: k in placed ==> placed[k] == PlaceOf(count, k)
    {
      placed := placed[order := if order <= columns then Box(ColX + (order - 1) * ColPitch, TopY, 0, order - 1)
                                else Box(ColX + (2 * columns - order) * ColPitch, BottomY, 1, 2 * columns - order)];
    }
  }

  predicate Inside(count: nat, x: int, y: int) {
    0 <= x <= Width(count) && 0 <= y <= Height
  }

  ghost predicate Apart(a: Box, b: Box) {
    a.x + BoxW <= b.x || b.x + BoxW <= a.x || a.y + BoxH <= b.y || b.y + BoxH <= a.y
  }

  lemma {:induction false} BoxesInside(count: nat, order: nat)
    requires 1 <= order <= count
    ensures var b := PlaceOf(count, order); b.column < Columns(count) && Inside(count, b.x, b.y) && Inside(count, b.x + BoxW, b.y + BoxH)
  {
  }

  lemma {:induction false} BoxesApart(count: nat, a: nat, b: nat)
    requires 1 <= a <= count && 1 <= b <= count && a != b
    ensures Apart(PlaceOf(count, a), PlaceOf(count, b))
  {
    var p, q := PlaceOf(count, a), PlaceOf(count, b);
    if p.row == q.row {
      if p.column < q.column { Pitch(p.column, q.column); } else { Pitch(q.column, p.column); }
    }
  }

  lemma {:induction false} Pitch(i: nat, j: nat)
    requires i < j
    ensures i * ColPitch + BoxW <= j * ColPitch
  {
    assert (i + 1) * ColPitch <= j * ColPitch;
  }

  // ---- routes

  /** The points a path goes through or bends to, and where a label may stand. */
  datatype Route = Route(points: seq<(int, int)>, mark: Option<(int, int)>)

  function Distance(a: nat, b: nat): nat {
    if a < b then b - a else a - b
  }

  /** How a transition is drawn, if the layout can draw it. */
  function Edge(count: nat, from: nat, to: nat, kind: Kind): Option<Route>
    requires 1 <= from <= count && 1 <= to <= count
  {
    RouteOf(PlaceOf(count, from), PlaceOf(count, to), Columns(count), kind)
  }

  function RouteOf(a: Box, b: Box, columns: nat, kind: Kind): Option<Route> {
    if a.row == b.row && Distance(a.column, b.column) == 1 then
      if b.x > a.x then Some(Route([(a.x + BoxW, a.y + BoxH / 2), (b.x, a.y + BoxH / 2)], None))
      else Some(Route([(a.x, a.y + BoxH / 2), (b.x + BoxW, a.y + BoxH / 2)], None))
    else if a.column == b.column && a.row == 0 && b.row == 1 && !kind.Return? then
      Some(Route([(a.x + BoxW / 2, a.y + BoxH), (a.x + BoxW / 2, b.y - 2)], None))
    else if a.column == b.column && a.row == 1 && b.row == 0 && kind.Return? && a.column == columns - 1 then
      Some(Route([(a.x + BoxW - 7, a.y + 8), (a.x + BoxW + 33, a.y - 12), (a.x + BoxW + 33, b.y + 66), (a.x + BoxW + 3, b.y + 51)],
                 Some((a.x + BoxW + 26, (a.y + b.y + BoxH) / 2))))
    else if a.column == b.column && a.row == 1 && b.row == 0 && kind.Return? && a.column == 0 then
      Some(Route([(a.x + 30, a.y - 2), (a.x + 30, b.y + BoxH + 2)], Some((a.x + 18, (a.y + b.y + BoxH) / 2))))
    else if a.row == b.row && Distance(a.column, b.column) > 1 then
      var mid := (a.x + b.x) / 2 + BoxW / 2;
      if a.row == 0 then
        Some(Route([(a.x + BoxW / 2, a.y - 2), (a.x + BoxW / 2, a.y - 64), (b.x + BoxW / 2, a.y - 64), (b.x + BoxW / 2, b.y - 2)],
                   Some((mid, a.y - 56))))
      else
        Some(Route([(a.x + BoxW / 2, a.y + BoxH), (a.x + BoxW / 2, a.y + 140), (b.x + BoxW / 2, a.y + 140), (b.x + BoxW / 2, b.y + BoxH + 4)],
                   Some((mid, a.y + 148))))
    else None
  }

  /** A transition can be drawn exactly if it stays in its row; or goes down to the stage below, and is no return; or
      returns to the stage above at either end of the rows. */
  lemma {:induction false} RoutableIff(count: nat, from: nat, to: nat, kind: Kind)
    requires 1 <= from <= count && 1 <= to <= count && from != to
    ensures var c := Columns(count);
            Edge(count, from, to, kind).Some?
              == ((from <= c <==> to <= c)
                  || (from + to == 2 * c + 1
                      && ((from < to && !kind.Return?) || (to < from && kind.Return? && (to == c || to == 1)))))
  {
    var a, b := PlaceOf(count, from), PlaceOf(count, to);
    assert a.row == b.row ==> a.column != b.column;
  }

  /** So the line from each stage to the next can be drawn, and a return to the stage before, at the turn too. */
  lemma {:induction false} NeighboursRoutable(count: nat, order: nat)
    requires 1 <= order < count
    ensures Edge(count, order, order + 1, Main).Some? && Edge(count, order, order + 1, Conditional).Some?
    ensures Edge(count, order + 1, order, Return).Some?
  {
    RoutableIff(count, order, order + 1, Main);
    RoutableIff(count, order, order + 1, Conditional);
    RoutableIff(count, order + 1, order, Return);
  }

  ghost predicate RouteInside(count: nat, r: Option<Route>) {
    r.Some? ==>
      && (forall k :: 0 <= k < |r.value.points| ==> Inside(count, r.value.points[k].0, r.value.points[k].1))
      && (r.value.mark.Some? ==> Inside(count, r.value.mark.value.0, r.value.mark.value.1))
  }

  /** A box as the layout places it: its column within the width, its row at one of two heights. */
  predicate Placed(count: nat, b: Box) {
    && ColX <= b.x && b.x + BoxW + 38 <= Width(count)
    && ((b.row == 0 && b.y == TopY) || (b.row == 1 && b.y == BottomY))
  }

  lemma {:induction false} BoxesPlaced(count: nat, order: nat)
    requires 1 <= order <= count
    ensures Placed(count, PlaceOf(count, order))
  {
  }

  lemma {:induction false} RouteStays(count: nat, a: Box, b: Box, columns: nat, kind: Kind)
    requires Placed(count, a) && Placed(count, b)
    ensures RouteInside(count, RouteOf(a, b, columns, kind))
  {
  }

  /** Whatever is drawn stays on the canvas. */
  lemma {:induction false} RoutesInside(count: nat, from: nat, to: nat, kind: Kind)
    requires 1 <= from <= count && 1 <= to <= count
    ensures RouteInside(count, Edge(count, from, to, kind))
  {
    BoxesPlaced(count, from);
    BoxesPlaced(count, to);
    RouteStays(count, PlaceOf(count, from), PlaceOf(count, to), Columns(count), kind);
  }
}
