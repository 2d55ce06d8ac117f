/** Task freshness against the integration branch: the fetching observer and the read-only one. */
module Freshness {
  import opened Results
  import opened CommitGraph

  datatype Relation = Equal | Behind | Ahead | Diverged | Missing

  /** One clone: the commits it holds (all of their ancestors included) and its refs. */
  datatype Clone = Clone(store: set<Commit>, refs: map<string, Commit>)

  ghost predicate ValidClone(g: Graph, c: Clone) {
    && (forall x :: x in c.store ==> Known(g, x))
    && (forall x, a :: x in c.store && Known(g, x) && Ancestor(g, a, x) ==> a in c.store)
    && (forall r :: r in c.refs ==> c.refs[r] in c.store)
  }

  function RefSha(c: Clone, ref: string): Option<Commit> {
    if ref in c.refs then Some(c.refs[ref]) else None
  }

  function RelationOf(g: Graph, left: Option<Commit>, right: Option<Commit>): (r: Relation)
    requires left.Some? ==> Known(g, left.value)
    requires right.Some? ==> Known(g, right.value)
  {
    if left.None? || right.None? then Missing
    else if left.value == right.value then Equal
    else if Ancestor(g, left.value, right.value) then Behind
    else if Ancestor(g, right.value, left.value) then Ahead
    else Diverged
  }

  predicate Fresh(r: Relation) {
    r == Equal || r == Ahead
  }

  function Closure(g: Graph, c: Commit): (s: set<Commit>)
    requires Known(g, c)
    ensures forall a: Commit :: a in s <==> a <= c && Ancestor(g, a, c)
  {
    set a: Commit | 0 <= a <= c && Ancestor(g, a, c)
  }

  /** `git fetch` of one branch: the advertised commit, its ancestors and the tracking ref arrive. */
  function Fetched(g: Graph, c: Clone, trackingRef: string, sha: Commit): Clone
    requires Known(g, sha)
  {
    Clone(c.store + Closure(g, sha), c.refs[trackingRef := sha])
  }

  datatype Failure = RemoteUnreadable | BranchNotFound | TaskRefMissing

  /** The branches of the remote, in the order of their names, as `ls-remote --heads` lists them. */
  datatype Remote = Unreachable | Heads(listed: seq<(string, Commit)>)

  ghost predicate ValidRemote(g: Graph, remote: Remote) {
    remote.Heads? ==> forall k :: 0 <= k < |remote.listed| ==> Known(g, remote.listed[k].1)
  }

  /** The commit of the branch of exactly this name, which `git fetch` gets. */
  function HeadOf(listed: seq<(string, Commit)>, branch: string): Option<Commit> {
    if listed == [] then None else if listed[0].0 == branch then Some(listed[0].1) else HeadOf(listed[1..], branch)
  }

  /** The pattern of `ls-remote` matches whole components at the end of a name. */
  predicate Matches(name: string, branch: string) {
    name == branch || (|name| > |branch| && name[|name| - |branch|..] == branch && name[|name| - |branch| - 1] == '/')
  }

  /** The commit on the first line that `ls-remote` prints for the branch. */
  function FirstListed(listed: seq<(string, Commit)>, branch: string): Option<Commit> {
    if listed == [] then None else if Matches(listed[0].0, branch) then Some(listed[0].1) else FirstListed(listed[1..], branch)
  }

  function ObserveByFetch(g: Graph, c: Clone, remote: Remote, branch: string, trackingRef: string, taskRef: string)
    : Result<(Relation, Commit), Failure>
    requires ValidClone(g, c) && ValidRemote(g, remote)
  {
    if remote.Unreachable? then Err(RemoteUnreadable)
    else
      HeadIsListed(remote.listed, branch);
      match HeadOf(remote.listed, branch)
      case None => Err(BranchNotFound)
      case Some(sha) =>
        var fetched := Fetched(g, c, trackingRef, sha);
        var state := RelationOf(g, RefSha(fetched, taskRef), RefSha(fetched, trackingRef));
        if state == Missing then Err(TaskRefMissing) else Ok((state, sha))
  }

  function ObserveReadOnly(g: Graph, c: Clone, remote: Remote, branch: string, taskRef: string): Result<(Relation, Commit), Failure>
    requires ValidClone(g, c)
  {
    if remote.Unreachable? then Err(RemoteUnreadable)
    else
      match FirstListed(remote.listed, branch)
      case None => Err(BranchNotFound)
      case Some(sha) =>
        if sha !in c.store then Ok((Behind, sha))
        else
          var state := RelationOf(g, RefSha(c, taskRef), Some(sha));
          if state == Missing then Err(TaskRefMissing) else Ok((state, sha))
  }

  lemma {:induction false} HeadIsListed(listed: seq<(string, Commit)>, branch: string)
    ensures HeadOf(listed, branch).Some? ==> exists k :: 0 <= k < |listed| && listed[k] == (branch, HeadOf(listed, branch).value)
  {
    if listed != [] && listed[0].0 != branch {
      HeadIsListed(listed[1..], branch);
      if HeadOf(listed, branch).Some? {
        var k :| 0 <= k < |listed[1..]| && listed[1..][k] == (branch, HeadOf(listed, branch).value);
        assert listed[k + 1] == (branch, HeadOf(listed, branch).value);
      }
    } else if listed != [] {
      assert listed[0] == (branch, HeadOf(listed, branch).value);
    }
  }

  /** Which side is ahead is a matter of viewpoint: swapping the refs swaps behind and ahead and changes nothing else. */
  lemma RelationSwaps(g: Graph, left: Option<Commit>, right: Option<Commit>)
    requires left.Some? ==> Known(g, left.value)
    requires right.Some? ==> Known(g, right.value)
    ensures RelationOf(g, left, right) == Behind <==> RelationOf(g, right, left) == Ahead
    ensures RelationOf(g, left, right) == Ahead <==> RelationOf(g, right, left) == Behind
    ensures RelationOf(g, left, right) == Equal <==> RelationOf(g, right, left) == Equal
    ensures RelationOf(g, left, right) == Diverged <==> RelationOf(g, right, left) == Diverged
    ensures RelationOf(g, left, right) == Missing <==> RelationOf(g, right, left) == Missing
  {
    if left.Some? && right.Some? && Ancestor(g, left.value, right.value) && Ancestor(g, right.value, left.value) {
      AncestorIsOlder(g, left.value, right.value);
      AncestorIsOlder(g, right.value, left.value);
    }
  }

  /** Fresh means exactly that the task contains the integration head. */
  lemma FreshIffContains(g: Graph, task: Commit, main: Commit)
    requires Known(g, task) && Known(g, main)
    ensures Fresh(RelationOf(g, Some(task), Some(main))) <==> Ancestor(g, main, task)
  {
    if Ancestor(g, task, main) && Ancestor(g, main, task) {
      AncestorIsOlder(g, task, main);
      AncestorIsOlder(g, main, task);
    }
  }

  /** Fetching keeps the clone parent-closed with every ref inside its store. */
  lemma FetchKeepsClone(g: Graph, c: Clone, trackingRef: string, sha: Commit)
    requires ValidClone(g, c) && Known(g, sha)
    ensures ValidClone(g, Fetched(g, c, trackingRef, sha))
  {
    var f := Fetched(g, c, trackingRef, sha);
    forall x, a | x in f.store && Known(g, x) && Ancestor(g, a, x)
      ensures a in f.store
    {
      if x in Closure(g, sha) { AncestorTransitive(g, a, x, sha); AncestorIsOlder(g, a, sha); }
    }
  }

  /** The first line is that of the branch itself. */
  predicate ListedFirst(remote: Remote, branch: string) {
    remote.Heads? ==> FirstListed(remote.listed, branch) == HeadOf(remote.listed, branch)
  }

  /** The read-only answer is as good as that of the fetch: they fail alike and name the same commit, except that a
      missing task ref goes unnoticed when that commit is not held locally; and both say fresh or neither does. */
  ghost predicate AsGood(byFetch: Result<(Relation, Commit), Failure>, readOnly: Result<(Relation, Commit), Failure>, held: bool) {
    if held then readOnly == byFetch
    else
      match byFetch
      case Ok((state, sha)) => readOnly == Ok((Behind, sha)) && !Fresh(state)
      case Err(TaskRefMissing) => readOnly.Ok? && readOnly.value.0 == Behind
      case Err(f) => readOnly == Err(f)
  }

  predicate Held(c: Clone, remote: Remote, branch: string) {
    remote.Heads? && HeadOf(remote.listed, branch).Some? && HeadOf(remote.listed, branch).value in c.store
  }

  /** Whenever the first listed line is the branch's own, the read-only observer refines the fetching one. */
  lemma ReadOnlyRefinesFetch(g: Graph, c: Clone, remote: Remote, branch: string, trackingRef: string, taskRef: string)
    requires ValidClone(g, c) && ValidRemote(g, remote) && taskRef != trackingRef && ListedFirst(remote, branch)
    ensures AsGood(ObserveByFetch(g, c, remote, branch, trackingRef, taskRef), ObserveReadOnly(g, c, remote, branch, taskRef),
                   Held(c, remote, branch))
  {
    if remote.Heads? && HeadOf(remote.listed, branch).Some? && taskRef in c.refs {
      HeadIsListed(remote.listed, branch);
      FreshIffContains(g, c.refs[taskRef], HeadOf(remote.listed, branch).value);
    }
  }

  /** It is if no other branch ends in a slash and this name; with a branch there is, the two name the same commit if
      and only if the first listed line is its own. */
  lemma SameCommitIff(g: Graph, c: Clone, remote: Remote, branch: string, trackingRef: string, taskRef: string)
    requires ValidClone(g, c) && ValidRemote(g, remote) && taskRef != trackingRef
    ensures remote.Heads? && (forall k :: 0 <= k < |remote.listed| && Matches(remote.listed[k].0, branch) ==> remote.listed[k].0 == branch)
            ==> ListedFirst(remote, branch)
    ensures var byFetch, readOnly := ObserveByFetch(g, c, remote, branch, trackingRef, taskRef), ObserveReadOnly(g, c, remote, branch, taskRef);
            byFetch.Ok? && readOnly.Ok? ==> (byFetch.value.1 == readOnly.value.1 <==> ListedFirst(remote, branch))
  {
    if remote.Heads? {
      HeadIsListed(remote.listed, branch);
      OnlyOwn(remote.listed, branch);
    }
  }

  lemma {:induction false} OnlyOwn(listed: seq<(string, Commit)>, branch: string)
    ensures (forall k :: 0 <= k < |listed| && Matches(listed[k].0, branch) ==> listed[k].0 == branch)
            ==> FirstListed(listed, branch) == HeadOf(listed, branch)
  {
    if listed != [] && forall k :: 0 <= k < |listed| && Matches(listed[k].0, branch) ==> listed[k].0 == branch {
      assert forall k :: 0 <= k < |listed[1..]| ==> listed[1..][k] == listed[k + 1];
      OnlyOwn(listed[1..], branch);
    }
  }

  /** With a branch "a/main" besides "main", the task that contains the first and not the second reads as fresh. */
  lemma OtherBranchReadsFresh() returns (g: Graph, c: Clone, remote: Remote)
    ensures ValidClone(g, c) && ValidRemote(g, remote)
    ensures remote == Heads([("a/main", 0), ("main", 1)])
    ensures ObserveReadOnly(g, c, remote, "main", "HEAD") == Ok((Equal, 0))
    ensures ObserveByFetch(g, c, remote, "main", "origin/main", "HEAD") == Ok((Behind, 1))
  {
    g := History([[], [0]]);
    c := Clone({0}, map["HEAD" := 0]);
    remote := Heads([("a/main", 0), ("main", 1)]);
    assert Matches("a/main", "main");
    assert "a/main" != "main" && "HEAD" != "origin/main" by { assert |"a/main"| != |"main"| && |"HEAD"| != |"origin/main"|; }
    assert remote.listed[1..] == [("main", 1)];
    assert HeadOf([("main", 1)], "main") == Some(1);
    assert g.parents[1][0] == 0 && Ancestor(g, 0, g.parents[1][0]) && Ancestor(g, 0, 1);
  }
}
