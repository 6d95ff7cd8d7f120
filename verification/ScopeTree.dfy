/** The authorization scope hierarchy of one tenant and its ancestor query. */
module ScopeTree {
  import opened Basics
  import opened Policy

  datatype Node = Node(scopeType: ScopeType, parent: Option<Id>, active: bool)

  type Tree = map<Id, Node>

  /** The parent types the hierarchy trigger admits. */
  predicate ParentAllowed(child: ScopeType, parent: ScopeType) {
    match child
    case Tenant => false
    case LegalEntity => parent.Tenant?
    case Region => parent.Tenant? || parent.LegalEntity?
    case Branch => parent.Region? || parent.LegalEntity?
    case Client => parent.Tenant? || parent.Region? || parent.Branch?
    case Location => parent.Client? || parent.Branch?
    case Vendor => parent.Tenant? || parent.Region? || parent.Branch?
    case AssignedTrip => !parent.LegalEntity? && !parent.AssignedTrip?
  }

  ghost predicate WellFormed(tree: Tree) {
    forall n <- tree :: tree[n].parent.Some? ==>
      tree[n].parent.value in tree && ParentAllowed(tree[n].scopeType, tree[tree[n].parent.value].scopeType)
  }

  /** Admitted parent types strictly descend, so every chain of parents is finite. */
  function Rank(s: ScopeType): nat {
    match s
    case Tenant => 0
    case LegalEntity => 1
    case Region => 2
    case Branch => 3
    case Client => 4
    case Vendor => 4
    case Location => 5
    case AssignedTrip => 6
  }

  /** The rows the recursive query produces for one origin: the node, its parent, and so on. */
  function Chain(tree: Tree, n: Id): seq<Id>
    requires WellFormed(tree) && n in tree
    decreases Rank(tree[n].scopeType)
  {
    match tree[n].parent
    case None => [n]
    case Some(p) => [n] + Chain(tree, p)
  }

  /** The ancestors of each known node, the origin removed. */
  function Ancestors(tree: Tree, nodeIds: seq<Id>): map<Id, seq<Id>>
    requires WellFormed(tree)
  {
    map n | n in nodeIds && n in tree :: Chain(tree, n)[1..]
  }

  /** k steps up from n. */
  function Up(tree: Tree, n: Id, k: nat): Option<Id>
    decreases k
  {
    if n !in tree then None
    else if k == 0 then Some(n)
    else if tree[n].parent.None? then None
    else Up(tree, tree[n].parent.value, k - 1)
  }

  ghost predicate Above(tree: Tree, n: Id, a: Id) {
    exists k: nat :: Up(tree, n, k) == Some(a)
  }

  lemma {:induction false} ChainIsReachability(tree: Tree, n: Id, a: Id)
    requires WellFormed(tree) && n in tree
    ensures a in Chain(tree, n) <==> Above(tree, n, a)
    ensures forall x <- Chain(tree, n) :: x in tree
    decreases Rank(tree[n].scopeType)
  {
    assert Up(tree, n, 0) == Some(n);
    if tree[n].parent.Some? {
      var p := tree[n].parent.value;
      ChainIsReachability(tree, p, a);
      if Above(tree, p, a) {
        var k: nat :| Up(tree, p, k) == Some(a);
        assert Up(tree, n, k + 1) == Some(a);
      }
      if Above(tree, n, a) && a != n {
        var k: nat :| Up(tree, n, k) == Some(a);
        assert Up(tree, p, k - 1) == Some(a);
      }
    } else if Above(tree, n, a) {
      var k: nat :| Up(tree, n, k) == Some(a);
    }
  }

  lemma {:induction false} AboveIsTransitive(tree: Tree, n: Id, a: Id, b: Id)
    requires Above(tree, n, a) && Above(tree, a, b)
    ensures Above(tree, n, b)
  {
    var j: nat :| Up(tree, n, j) == Some(a);
    var k: nat :| Up(tree, a, k) == Some(b);
    UpAdds(tree, n, a, j, k);
  }

  lemma {:induction false} UpAdds(tree: Tree, n: Id, a: Id, j: nat, k: nat)
    requires Up(tree, n, j) == Some(a)
    ensures Up(tree, n, j + k) == Up(tree, a, k)
    decreases j
  {
    if j > 0 {
      UpAdds(tree, tree[n].parent.value, a, j - 1, k);
    }
  }

  lemma {:induction false} ChainRanksDescend(tree: Tree, n: Id, i: nat)
    requires WellFormed(tree) && n in tree && 0 < i < |Chain(tree, n)|
    ensures Chain(tree, n)[i] in tree
    ensures Rank(tree[Chain(tree, n)[i]].scopeType) < Rank(tree[n].scopeType)
    decreases Rank(tree[n].scopeType)
  {
    var p := tree[n].parent.value;
    if i > 1 {
      ChainRanksDescend(tree, p, i - 1);
    }
  }

  /** The ancestors map says exactly what lies above, and no node is its own ancestor. */
  lemma AncestorsAreWhatLiesAbove(tree: Tree, nodeIds: seq<Id>, n: Id, a: Id)
    requires WellFormed(tree) && n in nodeIds && n in tree
    ensures a in Ancestors(tree, nodeIds)[n] <==> a != n && Above(tree, n, a)
  {
    ChainIsReachability(tree, n, a);
    var chain := Chain(tree, n);
    assert chain == [n] + chain[1..];
    if n in chain[1..] {
      var i :| 0 <= i < |chain[1..]| && chain[1..][i] == n;
      ChainRanksDescend(tree, n, i + 1);
    }
  }

  /** One tenant root above everything. */
  ghost predicate SingleRooted(tree: Tree, root: Id) {
    && root in tree && tree[root].scopeType.Tenant?
    && forall n <- tree :: n == root || tree[n].parent.Some?
  }

  lemma {:induction false} RootIsAboveAll(tree: Tree, root: Id, n: Id)
    requires WellFormed(tree) && SingleRooted(tree, root) && n in tree
    ensures root in Chain(tree, n)
    decreases Rank(tree[n].scopeType)
  {
    if n != root {
      RootIsAboveAll(tree, root, tree[n].parent.value);
    }
  }
}
