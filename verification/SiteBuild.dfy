/** The builder of the site: nodes whose children are filled in, and the page order appended to step by step. */
module SiteBuild {
  import opened Results
  import opened Ordering
  import opened SiteTree

  class Node {
    const id: string
    const parent: Option<string>
    const order: int
    /** An element that has no sources of its own, and so needs children. */
    const bare: bool
    var children: seq<string>

    constructor (id: string, parent: Option<string>, order: int, bare: bool)
      ensures this.id == id && this.parent == parent && this.order == order && this.bare == bare && children == []
    {
      this.id, this.parent, this.order, this.bare, children := id, parent, order, bare, [];
    }
  }

  datatype LinkError = ParentCycle(id: string) | Childless(id: string)

  /** The ids, in dictionary order, whose parent is `x`. */
  function Appended(t: map<string, Place>, names: seq<string>, x: string): (q: seq<string>)
    requires forall y :: y in names ==> y in t
  {
    if names == [] then []
    else
      var last := names[|names| - 1];
      Appended(t, names[..|names| - 1], x) + if t[last].parent == Some(x) then [last] else []
  }

  class Site {
    /** Ids in the order in which the dictionary holds them. */
    const names: seq<string>
    const nodes: map<string, Node>
    var roots: seq<string>
    var order: seq<string>

    constructor (names: seq<string>, nodes: map<string, Node>)
      ensures this.names == names && this.nodes == nodes && roots == [] && order == []
    {
      this.names, this.nodes, roots, order := names, nodes, [], [];
    }

    /** Each node is stored under its own id. */
    ghost predicate Valid() {
      (forall i :: 0 <= i < |names| ==> names[i] in nodes) && forall x :: x in nodes ==> nodes[x].id == x
    }

    /** Every node is listed. */
    ghost predicate Complete() {
      forall x :: x in nodes ==> x in names
    }

    function Tree(): (t: map<string, Place>)
      ensures t.Keys == nodes.Keys && forall x :: x in nodes ==> t[x] == Place(nodes[x].parent, nodes[x].order)
    {
      map x | x in nodes :: Place(nodes[x].parent, nodes[x].order)
    }

    /** Every node lists its children in order. */
    ghost predicate HasChildren()
      reads nodes.Values
    {
      forall x {:trigger nodes[x].children} :: x in nodes ==> nodes[x].children == Children(Tree(), x)
    }

    method Append()
      requires Valid() && Linked(Tree()) && forall x {:trigger nodes[x].children} :: x in nodes ==> nodes[x].children == []
      modifies nodes.Values
      ensures forall x :: x in nodes ==> nodes[x].children == Appended(Tree(), names, x)
    {
      var t := Tree();
      for k := 0 to |names|
        invariant forall x :: x in nodes ==> nodes[x].children == Appended(t, names[..k], x)
      {
        var node := nodes[names[k]];
        assert names[..k + 1][..k] == names[..k];
        if node.parent.Some? {
          var p := nodes[node.parent.value];
          p.children := p.children + [names[k]];
        }
      }
      assert names[..|names|] == names;
    }

    /** Whether climbing from this node meets a root. */
    method Climb(id: string) returns (ok: bool)
      requires Valid() && Linked(Tree()) && id in nodes
      ensures ok == Climbs(Tree(), id, {})
    {
      var t := Tree();
      var seen: set<string> := {};
      var current := Some(id);
      while current.Some?
        invariant seen <= t.Keys && (current.Some? ==> current.value in nodes)
        invariant Climbs(t, id, {}) == (current.Some? ==> Climbs(t, current.value, seen))
        decreases current.Some?, |t.Keys - seen|
      {
        if current.value in seen { return false; }
        SmallerSet(t.Keys - (seen + {current.value}), t.Keys - seen);
        seen := seen + {current.value};
        current := nodes[current.value].parent;
      }
      return true;
    }

    ghost predicate HoldsChildren(x: string)
      requires x in nodes
      reads nodes[x]
    {
      (set c | c in nodes[x].children) == ChildSet(Tree(), x)
    }

    ghost predicate IsSorted(x: string)
      requires x in nodes
      reads nodes[x]
    {
      nodes[x].children == Children(Tree(), x)
    }

    method SortOne(x: string)
      requires Valid() && x in nodes && HoldsChildren(x)
      modifies nodes[x]
      ensures IsSorted(x) && HoldsChildren(x)
    {
      nodes[x].children := Listing(Tree(), set c | c in nodes[x].children);
    }

    /** Sorts every node's children and climbs from it; stops at a node that meets no root. */
    method SortAndCheck() returns (r: Option<string>)
      requires Valid() && Linked(Tree()) && forall i :: 0 <= i < |names| ==> HoldsChildren(names[i])
      modifies nodes.Values
      ensures r.Some? ==> r.value in nodes && !Climbs(Tree(), r.value, {})
      ensures r.None? ==> forall i :: 0 <= i < |names| ==> IsSorted(names[i]) && MeetsRoot(names[i])
    {
      for k := 0 to |names|
        invariant forall i :: 0 <= i < k ==> IsSorted(names[i]) && MeetsRoot(names[i])
        invariant forall i :: 0 <= i < |names| ==> HoldsChildren(names[i])
      {
        SortOne(names[k]);
        var climbs := Climb(names[k]);
        if !climbs { return Some(names[k]); }
      }
      return None;
    }

    ghost predicate MeetsRoot(x: string)
      requires Linked(Tree()) && x in nodes
    {
      Climbs(Tree(), x, {})
    }

    /** An element with neither sources nor children. */
    method FindChildless() returns (r: Option<string>)
      requires Valid() && Complete() && HasChildren()
      ensures r.None? ==> forall x :: x in nodes && nodes[x].bare ==> ChildSet(Tree(), x) != {}
      ensures r.Some? ==> r.value in nodes && nodes[r.value].bare && ChildSet(Tree(), r.value) == {}
    {
      for k := 0 to |names|
        invariant forall i :: 0 <= i < k && nodes[names[i]].bare ==> ChildSet(Tree(), names[i]) != {}
      {
        NoChildren(Tree(), names[k]);
        if nodes[names[k]].bare && nodes[names[k]].children == [] { return Some(names[k]); }
      }
      return None;
    }

    method CollectRoots()
      requires Valid()
      modifies this`roots
      ensures roots == Roots(Tree())
    {
      assert (set x | x in nodes && nodes[x].parent.None?) == RootSet(Tree());
      roots := Listing(Tree(), set x | x in nodes && nodes[x].parent.None?);
    }

    /** Fills the children and the roots, or names a node on or below a parent cycle, or an element with nothing. */
    method LinkTree() returns (r: Option<LinkError>)
      requires Valid() && Complete() && Linked(Tree())
      requires forall x {:trigger nodes[x].children} :: x in nodes ==> nodes[x].children == []
      modifies this`roots, nodes.Values
      ensures (r.Some? && r.value.ParentCycle?) <==> Cyclic(Tree())
      ensures r.Some? && r.value.ParentCycle? ==> r.value.id in nodes && !Climbs(Tree(), r.value.id, {})
      ensures r.None? ==> HasChildren() && roots == Roots(Tree())
      ensures r.None? ==> forall x :: x in nodes && nodes[x].bare ==> ChildSet(Tree(), x) != {}
      ensures r.Some? && r.value.Childless? ==> r.value.id in nodes && nodes[r.value.id].bare && ChildSet(Tree(), r.value.id) == {}
    {
      Append();
      AcceptedIff(Tree());
      forall i | 0 <= i < |names| ensures HoldsChildren(names[i]) { SameChildren(Tree(), names, names[i]); }
      var stuck := SortAndCheck();
      if stuck.Some? { return Some(ParentCycle(stuck.value)); }
      AllClimb();
      var childless := FindChildless();
      if childless.Some? { return Some(Childless(childless.value)); }
      CollectRoots();
      return None;
    }

    lemma {:induction false} AllClimb()
      requires Valid() && Complete() && Linked(Tree())
      requires forall i :: 0 <= i < |names| ==> IsSorted(names[i]) && MeetsRoot(names[i])
      ensures !Cyclic(Tree()) && HasChildren()
    {
      AcceptedIff(Tree());
    }

    /** The depth-first walk below the ids, which are all at depth `d`. */
    method Visit(ids: seq<string>, ghost t: Forest, ghost d: nat)
      requires Valid() && t == Tree() && HasChildren() && AtDepth(t, ids, d) && d <= |t.Keys|
      modifies this`order
      ensures order == old(order) + DepthFirst(t, ids, d)
      decreases |t.Keys| - d, |ids|
    {
      if ids == [] { return; }
      DepthBound(t, ids[0]);
      Parts(t, ids, d);
      order := order + [ids[0]];
      Visit(nodes[ids[0]].children, t, d + 1);
      Visit(ids[1..], t, d);
      JoinParts(old(order), [ids[0]], DepthFirst(t, Children(t, ids[0]), d + 1), DepthFirst(t, ids[1..], d));
    }

    /** Links the tree and walks it: the page order, or the error. */
    method Build() returns (r: Option<LinkError>)
      requires Valid() && Complete() && Linked(Tree()) && (forall x {:trigger nodes[x].children} :: x in nodes ==> nodes[x].children == []) && order == []
      modifies this, nodes.Values
      ensures (r.Some? && r.value.ParentCycle?) <==> Cyclic(Tree())
      ensures r.None? ==> !Cyclic(Tree()) && Rooted(Tree()) && order == PageOrder(Tree())
      ensures r.Some? ==> order == []
    {
      r := LinkTree();
      if r.Some? { return; }
      AcceptedIff(Tree());
      RootsAtDepth(Tree());
      Visit(roots, Tree(), 0);
    }
  }

  lemma {:induction false} AppendedAre(t: map<string, Place>, names: seq<string>, id: string, y: string)
    requires forall x :: x in names ==> x in t
    ensures y in Appended(t, names, id) <==> y in names && t[y].parent == Some(id)
  {
    if names != [] { AppendedAre(t, names[..|names| - 1], id, y); }
  }

  lemma {:induction false} SameChildren(t: map<string, Place>, names: seq<string>, id: string)
    requires forall x :: x in names <==> x in t
    ensures (set c | c in Appended(t, names, id)) == ChildSet(t, id)
  {
    forall y ensures y in Appended(t, names, id) <==> y in ChildSet(t, id) { AppendedAre(t, names, id, y); }
  }

  lemma {:induction false} NoChildren(t: map<string, Place>, id: string)
    ensures Children(t, id) == [] <==> ChildSet(t, id) == {}
  {
    if c :| c in ChildSet(t, id) { assert c in Children(t, id); }
  }

  lemma {:induction false} JoinParts(a: seq<string>, b: seq<string>, c: seq<string>, d: seq<string>)
    ensures a + b + c + d == a + (b + c + d)
  {
  }
}
