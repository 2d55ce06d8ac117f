/** The tree of the Explorer's nodes: parent links, the cycle check, and the depth-first order of the pages. */
module SiteTree {
  import opened Results
  import opened Ordering

  datatype Place = Place(parent: Option<string>, order: int)

  /** Every parent is a node: registration refuses dangling parents. */
  ghost predicate Linked(t: map<string, Place>) {
    forall x :: x in t && t[x].parent.Some? ==> t[x].parent.value in t
  }

  // ---- siblings in order

  /** The sort key `(order, id)`. */
  predicate Before(t: map<string, Place>, a: string, b: string)
    requires a in t && b in t
  {
    t[a].order < t[b].order || (t[a].order == t[b].order && Below(a, b))
  }

  predicate IsFirst(t: map<string, Place>, s: set<string>, m: string)
    requires s <= t.Keys
  {
    m in s && forall x :: x in s && x != m ==> Before(t, m, x)
  }

  lemma {:induction false} BeforeTotal(t: map<string, Place>, a: string, b: string)
    requires a in t && b in t
    ensures a == b || Before(t, a, b) || Before(t, b, a)
    ensures !(Before(t, a, b) && Before(t, b, a))
  {
    BelowTotal(a, b);
  }

  lemma {:induction false} BeforeTransitive(t: map<string, Place>, a: string, b: string, c: string)
    requires a in t && b in t && c in t && Before(t, a, b) && Before(t, b, c)
    ensures Before(t, a, c)
  {
    if t[a].order == t[c].order { BelowTransitive(a, b, c); }
  }

  lemma {:induction false} FirstExists(t: map<string, Place>, s: set<string>) returns (m: string)
    requires s != {} && s <= t.Keys
    ensures IsFirst(t, s, m)
  {
    m :| m in s;
    if s != {m} {
      var n := FirstExists(t, s - {m});
      BeforeTotal(t, m, n);
      if Before(t, n, m) { m := n; }
      else {
        forall x | x in s && x != m ensures Before(t, m, x) {
          if x != n { BeforeTransitive(t, m, n, x); }
        }
      }
    }
  }

  lemma {:induction false} FirstIsUnique(t: map<string, Place>, s: set<string>, a: string, b: string)
    requires s <= t.Keys && IsFirst(t, s, a) && IsFirst(t, s, b)
    ensures a == b
  {
    if a != b { BeforeTotal(t, a, b); }
  }

  function First(t: map<string, Place>, s: set<string>): (m: string)
    requires s != {} && s <= t.Keys
    ensures IsFirst(t, s, m)
  {
    assert exists m :: IsFirst(t, s, m) by { var m := FirstExists(t, s); }
    assert forall a, b | IsFirst(t, s, a) && IsFirst(t, s, b) :: a == b by {
      forall a, b | IsFirst(t, s, a) && IsFirst(t, s, b) ensures a == b { FirstIsUnique(t, s, a, b); }
    }
    var m :| m in s && IsFirst(t, s, m);
    m
  }

  /** The ids sorted by `(order, id)`. */
  function Listing(t: map<string, Place>, s: set<string>): (q: seq<string>)
    requires s <= t.Keys
    ensures forall x :: x in q <==> x in s
  {
    if s == {} then [] else var m := First(t, s); [m] + Listing(t, s - {m})
  }

  ghost predicate InOrder(t: map<string, Place>, q: seq<string>) {
    (forall x :: x in q ==> x in t) && forall i, j :: 0 <= i < j < |q| ==> Before(t, q[i], q[j])
  }

  lemma {:induction false} ListingInOrder(t: map<string, Place>, s: set<string>)
    requires s <= t.Keys
    ensures InOrder(t, Listing(t, s))
  {
    if s != {} {
      var m := First(t, s);
      ListingInOrder(t, s - {m});
    }
  }

  function ChildSet(t: map<string, Place>, id: string): (s: set<string>)
    ensures s <= t.Keys
  {
    set x | x in t && t[x].parent == Some(id)
  }

  function RootSet(t: map<string, Place>): (s: set<string>)
    ensures s <= t.Keys
  {
    set x | x in t && t[x].parent.None?
  }

  function Children(t: map<string, Place>, id: string): seq<string> {
    Listing(t, ChildSet(t, id))
  }

  function Roots(t: map<string, Place>): seq<string> {
    Listing(t, RootSet(t))
  }

  // ---- climbing to a root

  /** Climbing from `current` meets a root before a node seen already: the check the builder makes for every node. */
  predicate Climbs(t: map<string, Place>, current: string, seen: set<string>)
    requires Linked(t) && current in t && seen <= t.Keys
    decreases |t.Keys - seen|
  {
    current !in seen
    && (t[current].parent.None?
        || (assert t.Keys - (seen + {current}) < t.Keys - seen;
            SmallerSet(t.Keys - (seen + {current}), t.Keys - seen);
            Climbs(t, t[current].parent.value, seen + {current})))
  }

  lemma {:induction false} SmallerSet(a: set<string>, b: set<string>)
    requires a < b
    ensures |a| < |b|
  {
    var rest := b - a;
    assert b == a + rest && rest != {};
  }

  /** A root is `n` steps up. */
  ghost predicate RootAt(t: map<string, Place>, x: string, n: nat)
    requires Linked(t) && x in t
    decreases n
  {
    if n == 0 then t[x].parent.None? else t[x].parent.Some? && RootAt(t, t[x].parent.value, n - 1)
  }

  ghost predicate Rooted(t: map<string, Place>)
    requires Linked(t)
  {
    forall x :: x in t ==> exists n: nat :: RootAt(t, x, n)
  }

  /** The node `n` steps up. */
  ghost function Up(t: map<string, Place>, x: string, n: nat): Option<string>
    requires Linked(t) && x in t
    decreases n
  {
    if n == 0 then Some(x) else if t[x].parent.None? then None else Up(t, t[x].parent.value, n - 1)
  }

  /** A node that is its own ancestor. */
  ghost predicate Cyclic(t: map<string, Place>)
    requires Linked(t)
  {
    exists x, n: nat :: x in t && n > 0 && Up(t, x, n) == Some(x)
  }

  lemma {:induction false} ClimbedIsRooted(t: map<string, Place>, x: string, seen: set<string>)
    requires Linked(t) && x in t && seen <= t.Keys && Climbs(t, x, seen)
    ensures exists n: nat :: RootAt(t, x, n)
    decreases |t.Keys - seen|
  {
    if t[x].parent.None? {
      assert RootAt(t, x, 0);
    } else {
      SmallerSet(t.Keys - (seen + {x}), t.Keys - seen);
      ClimbedIsRooted(t, t[x].parent.value, seen + {x});
      var n: nat :| RootAt(t, t[x].parent.value, n);
      assert RootAt(t, x, n + 1);
    }
  }

  lemma {:induction false} UpOfRooted(t: map<string, Place>, x: string, n: nat, m: nat)
    requires Linked(t) && x in t && RootAt(t, x, n) && m > n
    ensures Up(t, x, m).None?
    decreases n
  {
    if n > 0 { UpOfRooted(t, t[x].parent.value, n - 1, m - 1); }
  }

  lemma {:induction false} UpTwice(t: map<string, Place>, x: string, n: nat, m: nat)
    requires Linked(t) && x in t && Up(t, x, n).Some?
    ensures Up(t, x, n).value in t && Up(t, x, n + m) == Up(t, Up(t, x, n).value, m)
    decreases n
  {
    if n > 0 { UpTwice(t, t[x].parent.value, n - 1, m); }
  }

  lemma {:induction false} CycleRepeats(t: map<string, Place>, x: string, n: nat, k: nat)
    requires Linked(t) && x in t && Up(t, x, n) == Some(x)
    ensures Up(t, x, k * n) == Some(x)
    decreases k
  {
    if k > 0 {
      CycleRepeats(t, x, n, k - 1);
      UpTwice(t, x, (k - 1) * n, n);
      assert (k - 1) * n + n == k * n;
    }
  }

  lemma {:induction false} RootedHasNoCycle(t: map<string, Place>)
    requires Linked(t) && Rooted(t)
    ensures !Cyclic(t)
  {
    forall x, n: nat | x in t && n > 0 ensures Up(t, x, n) != Some(x) {
      if Up(t, x, n) == Some(x) {
        var d: nat :| RootAt(t, x, d);
        CycleRepeats(t, x, n, d + 1);
        assert (d + 1) * n > d;
        UpOfRooted(t, x, d, (d + 1) * n);
      }
    }
  }

  /** What climbing from `start` has seen after `n` steps. */
  ghost predicate SeenFrom(t: map<string, Place>, start: string, seen: set<string>, n: nat)
    requires Linked(t) && start in t
  {
    forall y :: y in seen ==> exists k: nat :: k < n && Up(t, start, k) == Some(y)
  }

  lemma {:induction false} SeenGrows(t: map<string, Place>, start: string, x: string, seen: set<string>, n: nat)
    requires Linked(t) && start in t && Up(t, start, n) == Some(x) && SeenFrom(t, start, seen, n)
    ensures SeenFrom(t, start, seen + {x}, n + 1)
  {
    forall y | y in seen + {x} ensures exists k: nat :: k < n + 1 && Up(t, start, k) == Some(y) {
      if y in seen {
        var k: nat :| k < n && Up(t, start, k) == Some(y);
        assert k < n + 1;
      }
    }
  }

  lemma {:induction false} SeenAgain(t: map<string, Place>, start: string, x: string, seen: set<string>, n: nat)
    requires Linked(t) && start in t && x in t && Up(t, start, n) == Some(x) && SeenFrom(t, start, seen, n) && x in seen
    ensures Cyclic(t)
  {
    var k: nat :| k < n && Up(t, start, k) == Some(x);
    UpTwice(t, start, k, n - k);
    assert Up(t, x, n - k) == Some(x);
  }

  /** If the climb stops short, a cycle is there. */
  lemma {:induction false} StuckIsCyclic(t: map<string, Place>, start: string, x: string, seen: set<string>, n: nat)
    requires Linked(t) && start in t && x in t && seen <= t.Keys
    requires Up(t, start, n) == Some(x) && SeenFrom(t, start, seen, n) && !Climbs(t, x, seen)
    ensures Cyclic(t)
    decreases |t.Keys - seen|
  {
    if x in seen {
      SeenAgain(t, start, x, seen, n);
    } else {
      SmallerSet(t.Keys - (seen + {x}), t.Keys - seen);
      var p := t[x].parent.value;
      UpTwice(t, start, n, 1);
      assert Up(t, x, 1) == Up(t, p, 0);
      SeenGrows(t, start, x, seen, n);
      StuckIsCyclic(t, start, p, seen + {x}, n + 1);
    }
  }

  /** The check passes every node exactly when no node is its own ancestor, and then every node is under a root. */
  lemma {:induction false} AcceptedIff(t: map<string, Place>)
    requires Linked(t)
    ensures (forall x :: x in t ==> Climbs(t, x, {})) <==> !Cyclic(t)
    ensures !Cyclic(t) <==> Rooted(t)
  {
    if forall x :: x in t ==> Climbs(t, x, {}) {
      forall x | x in t ensures exists n: nat :: RootAt(t, x, n) { ClimbedIsRooted(t, x, {}); }
    }
    if x :| x in t && !Climbs(t, x, {}) {
      assert Up(t, x, 0) == Some(x);
      StuckIsCyclic(t, x, x, {}, 0);
    }
    if Rooted(t) { RootedHasNoCycle(t); }
  }

  // ---- depth

  lemma {:induction false} RootUnique(t: map<string, Place>, x: string, n: nat, m: nat)
    requires Linked(t) && x in t && RootAt(t, x, n) && RootAt(t, x, m)
    ensures n == m
    decreases n
  {
    if n > 0 { RootUnique(t, t[x].parent.value, n - 1, m - 1); }
  }

  /** A tree without a parent cycle. */
  type Forest = t: map<string, Place> | Linked(t) && Rooted(t) ghost witness map[]

  /** Steps up to the root. */
  ghost function Depth(t: Forest, x: string): (n: nat)
    requires x in t
    ensures RootAt(t, x, n)
  {
    var n: nat :| RootAt(t, x, n);
    n
  }

  lemma {:induction false} DepthOfParent(t: Forest, x: string)
    requires x in t
    ensures t[x].parent.None? <==> Depth(t, x) == 0
    ensures t[x].parent.Some? ==> Depth(t, t[x].parent.value) + 1 == Depth(t, x)
  {
    if t[x].parent.Some? { RootUnique(t, x, Depth(t, x), Depth(t, t[x].parent.value) + 1); }
  }

  /** A node with all its ancestors. */
  ghost function Lineage(t: Forest, x: string): (s: set<string>)
    requires x in t
    decreases Depth(t, x)
  {
    DepthOfParent(t, x);
    {x} + if t[x].parent.None? then {} else Lineage(t, t[x].parent.value)
  }

  lemma {:induction false} LineageCounts(t: Forest, x: string)
    requires x in t
    ensures Lineage(t, x) <= t.Keys && |Lineage(t, x)| == Depth(t, x) + 1
    ensures forall y :: y in Lineage(t, x) ==> y in t && Depth(t, y) <= Depth(t, x)
    decreases Depth(t, x)
  {
    DepthOfParent(t, x);
    if t[x].parent.Some? {
      LineageCounts(t, t[x].parent.value);
      assert x !in Lineage(t, t[x].parent.value);
    }
  }

  lemma {:induction false} SubsetCounts(a: set<string>, b: set<string>)
    requires a <= b
    ensures |a| <= |b|
  {
    if a != b { SmallerSet(a, b); }
  }

  lemma {:induction false} DepthBound(t: Forest, x: string)
    requires x in t
    ensures Depth(t, x) < |t.Keys|
  {
    LineageCounts(t, x);
    SubsetCounts(Lineage(t, x), t.Keys);
  }

  ghost predicate AtDepth(t: Forest, ids: seq<string>, d: nat) {
    forall k :: 0 <= k < |ids| ==> ids[k] in t && Depth(t, ids[k]) == d
  }

  lemma {:induction false} ChildrenAtDepth(t: Forest, id: string)
    requires id in t
    ensures AtDepth(t, Children(t, id), Depth(t, id) + 1)
  {
    forall k | 0 <= k < |Children(t, id)| ensures Depth(t, Children(t, id)[k]) == Depth(t, id) + 1 {
      assert Children(t, id)[k] in ChildSet(t, id);
      DepthOfParent(t, Children(t, id)[k]);
    }
  }

  lemma {:induction false} RootsAtDepth(t: Forest)
    ensures AtDepth(t, Roots(t), 0)
  {
    forall k | 0 <= k < |Roots(t)| ensures Depth(t, Roots(t)[k]) == 0 {
      assert Roots(t)[k] in RootSet(t);
      DepthOfParent(t, Roots(t)[k]);
    }
  }

  // ---- depth first

  function DepthFirst(t: Forest, ids: seq<string>, ghost d: nat): seq<string>
    requires AtDepth(t, ids, d) && d <= |t.Keys|
    decreases |t.Keys| - d, |ids|
  {
    if ids == [] then []
    else
      DepthBound(t, ids[0]);
      ChildrenAtDepth(t, ids[0]);
      [ids[0]] + DepthFirst(t, Children(t, ids[0]), d + 1) + DepthFirst(t, ids[1..], d)
  }

  /** The order of the pages. */
  function PageOrder(t: Forest): seq<string> {
    RootsAtDepth(t);
    DepthFirst(t, Roots(t), 0)
  }

  /** `x` is `id` or below it. */
  ghost predicate Under(t: Forest, id: string, x: string)
    requires x in t
    decreases Depth(t, x)
  {
    DepthOfParent(t, x);
    x == id || (t[x].parent.Some? && Under(t, id, t[x].parent.value))
  }

  ghost predicate UnderAny(t: Forest, ids: seq<string>, x: string)
    requires x in t
  {
    exists k :: 0 <= k < |ids| && Under(t, ids[k], x)
  }

  lemma {:induction false} UnderDepth(t: Forest, id: string, x: string)
    requires x in t && Under(t, id, x)
    ensures id in t && Depth(t, id) <= Depth(t, x)
    ensures Depth(t, id) == Depth(t, x) ==> id == x
    decreases Depth(t, x)
  {
    DepthOfParent(t, x);
    if x != id { UnderDepth(t, id, t[x].parent.value); }
  }

  lemma {:induction false} UnderOne(t: Forest, a: string, b: string, x: string)
    requires x in t && Under(t, a, x) && Under(t, b, x) && a in t && b in t && Depth(t, a) == Depth(t, b)
    ensures a == b
    decreases Depth(t, x)
  {
    DepthOfParent(t, x);
    UnderDepth(t, a, x);
    UnderDepth(t, b, x);
    if x != a && x != b { UnderOne(t, a, b, t[x].parent.value); }
  }

  lemma {:induction false} UnderChild(t: Forest, id: string, c: string, x: string)
    requires x in t && c in t && t[c].parent == Some(id) && Under(t, c, x)
    ensures Under(t, id, x)
    decreases Depth(t, x)
  {
    DepthOfParent(t, x);
    if x == c { assert Under(t, id, id); } else { UnderChild(t, id, c, t[x].parent.value); }
  }

  /** What is below a node is under one of its children. */
  lemma {:induction false} UnderVia(t: Forest, id: string, x: string)
    requires x in t && id in t
    ensures Under(t, id, x) <==> x == id || UnderAny(t, Children(t, id), x)
    decreases Depth(t, x)
  {
    DepthOfParent(t, x);
    var kids := Children(t, id);
    if x != id && Under(t, id, x) {
      var p := t[x].parent.value;
      if p == id {
        assert x in ChildSet(t, id);
        var k :| 0 <= k < |kids| && kids[k] == x;
        assert Under(t, kids[k], x);
      } else {
        UnderVia(t, id, p);
        var k :| 0 <= k < |kids| && Under(t, kids[k], p);
        assert Under(t, kids[k], x);
      }
    }
    if UnderAny(t, kids, x) {
      var k :| 0 <= k < |kids| && Under(t, kids[k], x);
      assert kids[k] in ChildSet(t, id);
      UnderChild(t, id, kids[k], x);
    }
  }

  lemma {:induction false} UnderSplit(t: Forest, ids: seq<string>, x: string)
    requires x in t && ids != []
    ensures UnderAny(t, ids, x) <==> Under(t, ids[0], x) || UnderAny(t, ids[1..], x)
  {
    if UnderAny(t, ids, x) {
      var k :| 0 <= k < |ids| && Under(t, ids[k], x);
      if k > 0 { assert ids[1..][k - 1] == ids[k]; }
    }
    if UnderAny(t, ids[1..], x) {
      var k :| 0 <= k < |ids[1..]| && Under(t, ids[1..][k], x);
      assert ids[k + 1] == ids[1..][k];
    }
  }

  /** The walk visits exactly what is under the ids. */
  lemma {:induction false} Visits(t: Forest, ids: seq<string>, d: nat, x: string)
    requires AtDepth(t, ids, d) && d <= |t.Keys|
    ensures x in DepthFirst(t, ids, d) <==> x in t && UnderAny(t, ids, x)
    decreases |t.Keys| - d, |ids|
  {
    if ids != [] {
      DepthBound(t, ids[0]);
      ChildrenAtDepth(t, ids[0]);
      Visits(t, Children(t, ids[0]), d + 1, x);
      Visits(t, ids[1..], d, x);
      if x in t {
        UnderVia(t, ids[0], x);
        UnderSplit(t, ids, x);
      }
    }
  }

  ghost predicate NoRepeats(q: seq<string>) {
    forall i, j :: 0 <= i < j < |q| ==> q[i] != q[j]
  }

  lemma {:induction false} ConcatNoRepeats(a: seq<string>, b: seq<string>)
    requires NoRepeats(a) && NoRepeats(b) && forall x :: x in a ==> x !in b
    ensures NoRepeats(a + b)
  {
    forall i, j | 0 <= i < j < |a + b| ensures (a + b)[i] != (a + b)[j] {
      if i < |a| <= j { assert a[i] in a && b[j - |a|] in b; }
    }
  }

  lemma {:induction false} OrderedNoRepeats(t: map<string, Place>, q: seq<string>)
    requires InOrder(t, q)
    ensures NoRepeats(q)
  {
    forall i, j | 0 <= i < j < |q| ensures q[i] != q[j] { BeforeTotal(t, q[i], q[j]); }
  }

  /** Nothing is under two different ids of the same depth. */
  lemma {:induction false} Apart(t: Forest, ids: seq<string>, d: nat, x: string)
    requires ids != [] && AtDepth(t, ids, d) && NoRepeats(ids) && x in t && Under(t, ids[0], x)
    ensures !UnderAny(t, ids[1..], x)
  {
    if UnderAny(t, ids[1..], x) {
      var k :| 0 <= k < |ids[1..]| && Under(t, ids[1..][k], x);
      assert ids[1..][k] == ids[k + 1];
      UnderOne(t, ids[0], ids[k + 1], x);
    }
  }

  lemma {:induction false} NotBelowItself(t: Forest, id: string)
    requires id in t
    ensures !UnderAny(t, Children(t, id), id)
  {
    ChildrenAtDepth(t, id);
    if k :| 0 <= k < |Children(t, id)| && Under(t, Children(t, id)[k], id) { UnderDepth(t, Children(t, id)[k], id); }
  }

  lemma {:induction false} VisitsOnce(t: Forest, ids: seq<string>, d: nat)
    requires AtDepth(t, ids, d) && d <= |t.Keys| && NoRepeats(ids)
    ensures NoRepeats(DepthFirst(t, ids, d))
    decreases |t.Keys| - d, |ids|
  {
    if ids != [] {
      var id, kids := ids[0], Children(t, ids[0]);
      DepthBound(t, id);
      ChildrenAtDepth(t, id);
      ListingInOrder(t, ChildSet(t, id));
      OrderedNoRepeats(t, kids);
      VisitsOnce(t, kids, d + 1);
      VisitsOnce(t, ids[1..], d);
      NotBelowItself(t, id);
      Visits(t, kids, d + 1, id);
      ConcatNoRepeats([id], DepthFirst(t, kids, d + 1));
      forall x | x in [id] + DepthFirst(t, kids, d + 1) ensures x !in DepthFirst(t, ids[1..], d) {
        Visits(t, kids, d + 1, x);
        Visits(t, ids[1..], d, x);
        UnderVia(t, id, x);
        Apart(t, ids, d, x);
      }
      ConcatNoRepeats([id] + DepthFirst(t, kids, d + 1), DepthFirst(t, ids[1..], d));
    }
  }

  lemma {:induction false} UnderSomeRoot(t: Forest, x: string)
    requires x in t
    ensures UnderAny(t, Roots(t), x)
    decreases Depth(t, x)
  {
    DepthOfParent(t, x);
    if t[x].parent.None? {
      assert x in RootSet(t);
      var k :| 0 <= k < |Roots(t)| && Roots(t)[k] == x;
      assert Under(t, Roots(t)[k], x);
    } else {
      UnderSomeRoot(t, t[x].parent.value);
      var k :| 0 <= k < |Roots(t)| && Under(t, Roots(t)[k], t[x].parent.value);
      assert Under(t, Roots(t)[k], x);
    }
  }

  /** Every node has exactly one place in the page order. */
  lemma {:induction false} EachNodeOnce(t: Forest)
    ensures forall x :: x in PageOrder(t) <==> x in t
    ensures NoRepeats(PageOrder(t))
  {
    RootsAtDepth(t);
    forall x ensures x in PageOrder(t) <==> x in t {
      Visits(t, Roots(t), 0, x);
      if x in t { UnderSomeRoot(t, x); }
    }
    ListingInOrder(t, RootSet(t));
    OrderedNoRepeats(t, Roots(t));
    VisitsOnce(t, Roots(t), 0);
  }

  // ---- parents and siblings

  ghost predicate Precedes(q: seq<string>, a: string, b: string) {
    exists i, j :: 0 <= i < j < |q| && q[i] == a && q[j] == b
  }

  lemma {:induction false} PrecedesWithin(before: seq<string>, q: seq<string>, after: seq<string>, a: string, b: string)
    requires Precedes(q, a, b)
    ensures Precedes(before + q + after, a, b)
  {
    var i, j :| 0 <= i < j < |q| && q[i] == a && q[j] == b;
    var whole, n := before + q + after, |before|;
    assert whole[n + i] == a && whole[n + j] == b;
  }

  lemma {:induction false} PrecedesAcross(p: seq<string>, q: seq<string>, a: string, b: string)
    requires a in p && b in q
    ensures Precedes(p + q, a, b)
  {
    var i :| 0 <= i < |p| && p[i] == a;
    var j :| 0 <= j < |q| && q[j] == b;
    assert (p + q)[i] == a && (p + q)[|p| + j] == b;
  }

  /** The three parts of a walk. */
  lemma {:induction false} Parts(t: Forest, ids: seq<string>, d: nat)
    requires AtDepth(t, ids, d) && d < |t.Keys| && ids != []
    ensures AtDepth(t, Children(t, ids[0]), d + 1)
    ensures DepthFirst(t, ids, d) == [ids[0]] + DepthFirst(t, Children(t, ids[0]), d + 1) + DepthFirst(t, ids[1..], d)
  {
    ChildrenAtDepth(t, ids[0]);
  }

  lemma {:induction false} ParentVisitedFirst(t: Forest, ids: seq<string>, d: nat, x: string)
    requires AtDepth(t, ids, d) && d <= |t.Keys| && x in t && x in DepthFirst(t, ids, d) && Depth(t, x) > d
    ensures t[x].parent.Some? && Precedes(DepthFirst(t, ids, d), t[x].parent.value, x)
    decreases |t.Keys| - d, |ids|
  {
    DepthOfParent(t, x);
    var id := ids[0];
    DepthBound(t, id);
    Parts(t, ids, d);
    var p, below, rest := t[x].parent.value, DepthFirst(t, Children(t, id), d + 1), DepthFirst(t, ids[1..], d);
    if x in below {
      if Depth(t, x) == d + 1 {
        ParentOfKid(t, id, d, x);
        PrecedesAcross([id], below + rest, id, x);
        assert [id] + (below + rest) == [id] + below + rest;
      } else {
        ParentVisitedFirst(t, Children(t, id), d + 1, x);
        PrecedesWithin([id], below, rest, p, x);
      }
    } else {
      ParentVisitedFirst(t, ids[1..], d, x);
      PrecedesWithin([id] + below, rest, [], p, x);
      assert [id] + below + rest + [] == [id] + below + rest;
    }
  }

  lemma {:induction false} ParentOfKid(t: Forest, id: string, d: nat, x: string)
    requires id in t && Depth(t, id) == d && d < |t.Keys| && x in t && Depth(t, x) == d + 1
    requires AtDepth(t, Children(t, id), d + 1) && x in DepthFirst(t, Children(t, id), d + 1)
    ensures t[x].parent == Some(id)
  {
    Visits(t, Children(t, id), d + 1, x);
    var k :| 0 <= k < |Children(t, id)| && Under(t, Children(t, id)[k], x);
    UnderDepth(t, Children(t, id)[k], x);
    assert x in ChildSet(t, id);
  }

  /** Every node comes after its parent. */
  lemma {:induction false} ParentsFirst(t: Forest, x: string)
    requires x in t && t[x].parent.Some?
    ensures Precedes(PageOrder(t), t[x].parent.value, x)
  {
    EachNodeOnce(t);
    RootsAtDepth(t);
    DepthOfParent(t, x);
    ParentVisitedFirst(t, Roots(t), 0, x);
  }

  lemma {:induction false} SameParentSameDepth(t: Forest, a: string, b: string)
    requires a in t && b in t && t[a].parent == t[b].parent
    ensures Depth(t, a) == Depth(t, b)
  {
    DepthOfParent(t, a);
    DepthOfParent(t, b);
  }

  lemma {:induction false} UnderAnyParent(t: Forest, ids: seq<string>, d: nat, x: string)
    requires AtDepth(t, ids, d) && x in t && Depth(t, x) > d
    ensures t[x].parent.Some? && (UnderAny(t, ids, x) ==> UnderAny(t, ids, t[x].parent.value))
  {
    DepthOfParent(t, x);
    if UnderAny(t, ids, x) {
      var k :| 0 <= k < |ids| && Under(t, ids[k], x);
      assert Under(t, ids[k], t[x].parent.value);
    }
  }

  /** Siblings are never under different ids above them. */
  lemma {:induction false} SiblingsTogether(t: Forest, ids: seq<string>, d: nat, a: string, b: string)
    requires ids != [] && AtDepth(t, ids, d) && NoRepeats(ids) && a in t && b in t && t[a].parent == t[b].parent
    requires a != ids[0] && Under(t, ids[0], a)
    ensures !UnderAny(t, ids[1..], b)
  {
    SameParentSameDepth(t, a, b);
    UnderDepth(t, ids[0], a);
    Apart(t, ids, d, t[a].parent.value);
    UnderAnyParent(t, ids[1..], d, b);
  }

  lemma {:induction false} SiblingsVisited(t: Forest, ids: seq<string>, d: nat, a: string, b: string)
    requires AtDepth(t, ids, d) && d <= |t.Keys| && InOrder(t, ids) && a in t && b in t && t[a].parent == t[b].parent
    requires Before(t, a, b) && a in DepthFirst(t, ids, d) && b in DepthFirst(t, ids, d)
    ensures Precedes(DepthFirst(t, ids, d), a, b)
    decreases |t.Keys| - d, |ids|
  {
    var id := ids[0];
    DepthBound(t, id);
    Parts(t, ids, d);
    OrderedNoRepeats(t, ids);
    BeforeTotal(t, a, b);
    SameParentSameDepth(t, a, b);
    var below, rest := DepthFirst(t, Children(t, id), d + 1), DepthFirst(t, ids[1..], d);
    WhereVisited(t, ids, d, a);
    WhereVisited(t, ids, d, b);
    if a in below { SiblingsTogether(t, ids, d, a, b); }
    if b in below { SiblingsTogether(t, ids, d, b, a); }
    if a in below && b in below {
      ListingInOrder(t, ChildSet(t, id));
      SiblingsVisited(t, Children(t, id), d + 1, a, b);
      PrecedesWithin([id], below, rest, a, b);
    } else if a in rest && b in rest {
      SiblingsVisited(t, ids[1..], d, a, b);
      PrecedesWithin([id] + below, rest, [], a, b);
      assert [id] + below + rest + [] == [id] + below + rest;
    } else if a == id {
      PrecedesAcross([id] + below, rest, a, b);
    }
  }

  lemma {:induction false} AmongKids(t: Forest, id: string, d: nat, x: string)
    requires id in t && Depth(t, id) == d && d < |t.Keys| && AtDepth(t, Children(t, id), d + 1) && x in t
    requires x in DepthFirst(t, Children(t, id), d + 1)
    ensures Under(t, id, x) && Depth(t, x) > d
  {
    Visits(t, Children(t, id), d + 1, x);
    UnderVia(t, id, x);
    var k :| 0 <= k < |Children(t, id)| && Under(t, Children(t, id)[k], x);
    UnderDepth(t, Children(t, id)[k], x);
  }

  lemma {:induction false} AmongRest(t: Forest, ids: seq<string>, d: nat, x: string)
    requires AtDepth(t, ids, d) && d <= |t.Keys| && x in t && x in DepthFirst(t, ids, d)
    ensures UnderAny(t, ids, x) && (Depth(t, x) == d ==> x in ids)
  {
    Visits(t, ids, d, x);
    var k :| 0 <= k < |ids| && Under(t, ids[k], x);
    UnderDepth(t, ids[k], x);
  }

  /** Where a visited node is: the first id itself, deeper under it, or under the others. */
  lemma {:induction false} WhereVisited(t: Forest, ids: seq<string>, d: nat, x: string)
    requires ids != [] && AtDepth(t, ids, d) && d < |t.Keys| && AtDepth(t, Children(t, ids[0]), d + 1)
    requires x in t && x in DepthFirst(t, ids, d)
    ensures x == ids[0] || x in DepthFirst(t, Children(t, ids[0]), d + 1) || x in DepthFirst(t, ids[1..], d)
    ensures x in DepthFirst(t, Children(t, ids[0]), d + 1) ==> Under(t, ids[0], x) && Depth(t, x) > d
    ensures x in DepthFirst(t, ids[1..], d) ==> UnderAny(t, ids[1..], x) && (Depth(t, x) == d ==> x in ids[1..])
  {
    Parts(t, ids, d);
    if x in DepthFirst(t, Children(t, ids[0]), d + 1) { AmongKids(t, ids[0], d, x); }
    if x in DepthFirst(t, ids[1..], d) { AmongRest(t, ids[1..], d, x); }
  }

  /** Siblings, and roots, come in the order of `(order, id)`. */
  lemma {:induction false} SiblingsInOrder(t: Forest, a: string, b: string)
    requires a in t && b in t && t[a].parent == t[b].parent && Before(t, a, b)
    ensures Precedes(PageOrder(t), a, b)
  {
    EachNodeOnce(t);
    RootsAtDepth(t);
    ListingInOrder(t, RootSet(t));
    SiblingsVisited(t, Roots(t), 0, a, b);
  }
}
