/** Git history as a finite DAG. Commits are numbered so that parents come before children; every
    finite DAG has such a numbering. A commit's first parent is the head of its parent list. */
module CommitGraph {
  import opened Results

  type Commit = nat

  datatype History = History(parents: seq<seq<Commit>>)

  ghost predicate Acyclic(h: History) {
    forall c, k :: 0 <= c < |h.parents| && 0 <= k < |h.parents[c]| ==> h.parents[c][k] < c
  }

  type Graph = h: History | Acyclic(h) witness History([])

  predicate Known(g: Graph, c: Commit) {
    c < |g.parents|
  }

  /** `git merge-base --is-ancestor a b`: reflexive and transitive over all parents. */
  predicate Ancestor(g: Graph, a: Commit, b: Commit)
    requires Known(g, b)
    decreases b
  {
    a == b || exists k :: 0 <= k < |g.parents[b]| && Ancestor(g, a, g.parents[b][k])
  }

  /** `c` lies on the first-parent line that ends at `tip`. */
  predicate OnLine(g: Graph, c: Commit, tip: Commit)
    requires Known(g, tip)
    decreases tip
  {
    c == tip || (g.parents[tip] != [] && OnLine(g, c, g.parents[tip][0]))
  }

  /** `git rev-list --first-parent base..tip`: walk first parents, hide whatever base already contains. */
  function FirstParentRange(g: Graph, base: Commit, tip: Commit): (r: seq<Commit>)
    requires Known(g, base) && Known(g, tip)
    decreases tip
  {
    if Ancestor(g, tip, base) then []
    else [tip] + if g.parents[tip] == [] then [] else FirstParentRange(g, base, g.parents[tip][0])
  }

  datatype MergeProblem = MergedBranch | MergedPr | UnprovenNoBase | UnprovenBaseUnknown | UnprovenNoOwnCommits

  /** Verdict on a registered branch whose head is contained in main. `exactPr` is GitHub's proof of an exact merged PR. */
  function AncestorMergeProblem(g: Graph, base: Option<Commit>, head: Commit, main: Commit, exactPr: bool): Option<MergeProblem>
    requires Known(g, head) && Known(g, main)
  {
    if base.None? then Some(if exactPr then MergedPr else UnprovenNoBase)
    else if !Known(g, base.value) then Some(UnprovenBaseUnknown)
    else if head == base.value then None
    else if Ancestor(g, base.value, head) && head !in FirstParentRange(g, base.value, main) then Some(MergedBranch)
    else Some(if exactPr then MergedPr else UnprovenNoOwnCommits)
  }

  // ---- order facts of the DAG

  lemma {:induction false} AncestorTransitive(g: Graph, a: Commit, b: Commit, c: Commit)
    requires Known(g, b) && Known(g, c) && Ancestor(g, a, b) && Ancestor(g, b, c)
    ensures Ancestor(g, a, c)
    decreases c
  {
    if b != c {
      var k :| 0 <= k < |g.parents[c]| && Ancestor(g, b, g.parents[c][k]);
      AncestorTransitive(g, a, b, g.parents[c][k]);
    }
  }

  lemma {:induction false} AncestorIsOlder(g: Graph, a: Commit, b: Commit)
    requires Known(g, b) && Ancestor(g, a, b)
    ensures a <= b
    decreases b
  {
    if a != b {
      var k :| 0 <= k < |g.parents[b]| && Ancestor(g, a, g.parents[b][k]);
      AncestorIsOlder(g, a, g.parents[b][k]);
    }
  }

  lemma {:induction false} LineIsAncestry(g: Graph, c: Commit, tip: Commit)
    requires Known(g, tip) && OnLine(g, c, tip)
    ensures Ancestor(g, c, tip)
    decreases tip
  {
    if c != tip { LineIsAncestry(g, c, g.parents[tip][0]); }
  }

  lemma {:induction false} LineTransitive(g: Graph, a: Commit, b: Commit, c: Commit)
    requires Known(g, b) && Known(g, c) && OnLine(g, a, b) && OnLine(g, b, c)
    ensures OnLine(g, a, c)
    decreases c
  {
    if b != c { LineTransitive(g, a, b, g.parents[c][0]); }
  }

  /** A first-parent line is a chain: the older of two of its commits lies on the line of the newer one. */
  lemma {:induction false} LineIsChain(g: Graph, a: Commit, b: Commit, tip: Commit)
    requires Known(g, tip) && Known(g, b) && OnLine(g, a, tip) && OnLine(g, b, tip) && a <= b
    ensures OnLine(g, a, b)
    decreases tip
  {
    if b != tip {
      if a == tip { LineIsAncestry(g, b, tip); AncestorIsOlder(g, b, tip); }
      else { LineIsChain(g, a, b, g.parents[tip][0]); }
    }
  }

  /** The range lists exactly the commits of main's first-parent line that the base does not contain. */
  lemma {:induction false} RangeIsLineMinusBase(g: Graph, base: Commit, tip: Commit, c: Commit)
    requires Known(g, base) && Known(g, tip)
    ensures c in FirstParentRange(g, base, tip) <==> OnLine(g, c, tip) && !Ancestor(g, c, base)
    decreases tip
  {
    if Ancestor(g, tip, base) {
      if OnLine(g, c, tip) {
        LineIsAncestry(g, c, tip);
        AncestorTransitive(g, c, tip, base);
      }
    } else if g.parents[tip] != [] {
      RangeIsLineMinusBase(g, base, g.parents[tip][0], c);
    }
  }

  // ---- what "merged-branch" means

  /** The verdict is "merged-branch" exactly for a branch that moved on from its registration base
      and whose tip is off main's first-parent line. */
  lemma MergedBranchIff(g: Graph, base: Option<Commit>, head: Commit, main: Commit, exactPr: bool)
    requires Known(g, head) && Known(g, main)
    ensures AncestorMergeProblem(g, base, head, main, exactPr) == Some(MergedBranch) <==>
            base.Some? && Known(g, base.value) && head != base.value
            && Ancestor(g, base.value, head) && !OnLine(g, head, main)
  {
    if base.Some? && Known(g, base.value) && head != base.value && Ancestor(g, base.value, head) {
      RangeIsLineMinusBase(g, base.value, main, head);
      if Ancestor(g, head, base.value) {
        AncestorIsOlder(g, head, base.value);
        AncestorIsOlder(g, base.value, head);
      }
    }
  }

  /** A contained tip that is off the first-parent line entered main through a non-first parent of some
      merge commit on that line. */
  lemma {:induction false} EnteredAsMergeParent(g: Graph, head: Commit, main: Commit) returns (merge: Commit, k: nat)
    requires Known(g, main) && Ancestor(g, head, main) && !OnLine(g, head, main)
    ensures Known(g, merge) && OnLine(g, merge, main)
    ensures 1 <= k < |g.parents[merge]| && Ancestor(g, head, g.parents[merge][k])
    decreases main
  {
    var j :| 0 <= j < |g.parents[main]| && Ancestor(g, head, g.parents[main][j]);
    if j == 0 {
      merge, k := EnteredAsMergeParent(g, head, g.parents[main][0]);
    } else {
      merge, k := main, j;
    }
  }

  /** As main advances along its first-parent line the "merged-branch" verdict on a contained branch never changes. */
  lemma MergedBranchIsStable(g: Graph, base: Option<Commit>, head: Commit, main: Commit, later: Commit, pr: bool, laterPr: bool)
    requires Known(g, head) && Known(g, main) && Known(g, later)
    requires Ancestor(g, head, main) && OnLine(g, main, later)
    ensures AncestorMergeProblem(g, base, head, main, pr) == Some(MergedBranch) <==>
            AncestorMergeProblem(g, base, head, later, laterPr) == Some(MergedBranch)
  {
    MergedBranchIff(g, base, head, main, pr);
    MergedBranchIff(g, base, head, later, laterPr);
    AncestorIsOlder(g, head, main);
    if OnLine(g, head, main) { LineTransitive(g, head, main, later); }
    if OnLine(g, head, later) { LineIsChain(g, head, main, later); }
  }
}
