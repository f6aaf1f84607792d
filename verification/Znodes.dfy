/** `zk_watcher.go`: creating a node with all its parents, and clearing a subtree of everything that
    leads to no ephemeral node. The tree is the one ZooKeeper keeps: a node is deleted only when it has
    no children, and ephemeral nodes have none. */
module Znodes {
  import opened Bytes
  import opened ZkNames

  /** Which nodes exist, and whether they are ephemeral. */
  type Nodes = map<Path, bool>

  function Parent(p: Path): Path
    requires p != []
  {
    p[..|p| - 1]
  }

  /** The root exists and is persistent, every node has its parent, and no parent is ephemeral. */
  ghost predicate Tree(nodes: Nodes) {
    && [] in nodes && !nodes[[]]
    && (forall p :: p in nodes && p != [] ==> Parent(p) in nodes && !nodes[Parent(p)])
  }

  /** All prefixes of a node exist, and the proper ones are not ephemeral. */
  lemma {:induction false} PrefixesExist(nodes: Nodes, p: Path, q: Path)
    requires Tree(nodes) && q in nodes && p <= q
    ensures p in nodes && (p != q ==> !nodes[p])
    decreases |q|
  {
    if p != q {
      PrefixesExist(nodes, p, Parent(q));
    }
  }

  function Children(nodes: Nodes, p: Path): set<string> {
    set q | q in nodes && |q| == |p| + 1 && p <= q :: q[|p|]
  }

  lemma ChildIff(nodes: Nodes, p: Path, c: string)
    ensures c in Children(nodes, p) <==> p + [c] in nodes
  {
    if p + [c] in nodes {
      assert (p + [c])[|p|] == c && p <= p + [c];
    }
    if c in Children(nodes, p) {
      var q :| q in nodes && |q| == |p| + 1 && p <= q && q[|p|] == c;
      assert q == p + [c];
    }
  }

  /** The node is an ephemeral one or leads to one. */
  ghost predicate Needed(nodes: Nodes, p: Path) {
    exists e :: e in nodes && nodes[e] && p <= e
  }

  /** What is left of the subtree at `root`: ephemeral nodes and their ancestors. */
  ghost function Cleaned(nodes: Nodes, root: Path): Nodes {
    map q | q in nodes && (root <= q ==> Needed(nodes, q)) :: nodes[q]
  }

  /** The same after only some children of `p` were cleaned. */
  ghost function CleanedBelow(nodes: Nodes, p: Path, done: set<string>): Nodes {
    map q | q in nodes && (|q| > |p| && p <= q && q[|p|] in done ==> Needed(nodes, q)) :: nodes[q]
  }

  /** The size of a subtree. */
  ghost function Subtree(nodes: Nodes, p: Path): set<Path> {
    set q | q in nodes && p <= q
  }

  /** Removing unneeded subtrees removes no ephemeral node, so the same nodes stay needed. */
  lemma NeededStays(nodes: Nodes, p: Path, done: set<string>, q: Path)
    ensures Needed(CleanedBelow(nodes, p, done), q) <==> Needed(nodes, q)
  {
    var rest := CleanedBelow(nodes, p, done);
    if Needed(nodes, q) {
      var e :| e in nodes && nodes[e] && q <= e;
      assert Needed(nodes, e);
      assert e in rest && rest[e];
    }
  }

  lemma NeededUp(nodes: Nodes, p: Path, q: Path)
    requires Needed(nodes, q) && p <= q
    ensures Needed(nodes, p)
  {
    var e :| e in nodes && nodes[e] && q <= e;
    assert p <= e;
  }

  lemma CleanedIsTree(nodes: Nodes, p: Path, done: set<string>)
    requires Tree(nodes)
    ensures Tree(CleanedBelow(nodes, p, done))
  {
    var rest := CleanedBelow(nodes, p, done);
    forall q | q in rest && q != [] ensures Parent(q) in rest && !rest[Parent(q)] {
      if Needed(nodes, q) {
        NeededUp(nodes, Parent(q), q);
      }
    }
  }

  /** Cleaning one more child. */
  lemma CleanOneMore(nodes: Nodes, p: Path, done: set<string>, c: string)
    ensures Cleaned(CleanedBelow(nodes, p, done), p + [c]) == CleanedBelow(nodes, p, done + {c})
  {
    var rest := CleanedBelow(nodes, p, done);
    forall q ensures (p + [c] <= q) <==> |q| > |p| && p <= q && q[|p|] == c {
    }
    forall q ensures Needed(rest, q) <==> Needed(nodes, q) {
      NeededStays(nodes, p, done, q);
    }
  }

  lemma SubtreeShrinks(nodes: Nodes, rest: Nodes, p: Path, c: string)
    requires rest.Keys <= nodes.Keys && p in nodes
    ensures |Subtree(rest, p + [c])| < |Subtree(nodes, p)|
  {
    var a, b := Subtree(rest, p + [c]), Subtree(nodes, p);
    assert p in b && p !in a;
    assert a <= b - {p};
    SubsetCount(a, b - {p});
  }

  /** A needed node that is not ephemeral itself leads on through a needed child. */
  lemma NeededChild(nodes: Nodes, p: Path) returns (c: string)
    requires Tree(nodes) && p in nodes && !nodes[p] && Needed(nodes, p)
    ensures p + [c] in nodes && Needed(nodes, p + [c])
  {
    var e :| e in nodes && nodes[e] && p <= e;
    assert |e| == |p| ==> e == p;
    c := e[|p|];
    assert p + [c] <= e;
    PrefixesExist(nodes, p + [c], e);
  }

  lemma ChildSurvivesIff(nodes: Nodes, p: Path, done: set<string>, c: string)
    requires c in done
    ensures p + [c] in CleanedBelow(nodes, p, done) <==> p + [c] in nodes && Needed(nodes, p + [c])
  {
    assert (p + [c])[|p|] == c && p <= p + [c];
  }

  /** With all children cleaned, the node itself has a child left exactly when it is needed. */
  lemma ChildLeftIffNeeded(nodes: Nodes, p: Path)
    requires Tree(nodes) && p in nodes && !nodes[p]
    ensures Children(CleanedBelow(nodes, p, Children(nodes, p)), p) != {} <==> Needed(nodes, p)
  {
    hide Children, CleanedBelow, Tree, Needed;
    var all := Children(nodes, p);
    var rest := CleanedBelow(nodes, p, all);
    if Needed(nodes, p) {
      var c := NeededChild(nodes, p);
      ChildIff(nodes, p, c);
      ChildSurvivesIff(nodes, p, all, c);
      ChildIff(rest, p, c);
    }
    if Children(rest, p) != {} {
      var c :| c in Children(rest, p);
      ChildIff(rest, p, c);
      LeftoverChild(nodes, p, all, c);
      ChildIff(nodes, p, c);
      ChildSurvivesIff(nodes, p, all, c);
      NeededUp(nodes, p, p + [c]);
    }
  }

  lemma LeftoverChild(nodes: Nodes, p: Path, done: set<string>, c: string)
    requires p + [c] in CleanedBelow(nodes, p, done)
    ensures p + [c] in nodes
  {
  }

  /** Every node below `p` is below one of its children. */
  lemma BelowSomeChild(nodes: Nodes, p: Path, q: Path)
    requires Tree(nodes) && q in nodes && p <= q && q != p
    ensures q[|p|] in Children(nodes, p)
  {
    hide Children, Tree;
    assert p + [q[|p|]] <= q;
    PrefixesExist(nodes, p + [q[|p|]], q);
    ChildIff(nodes, p, q[|p|]);
  }

  /** Deleting the node if it has no child left completes the cleaning. */
  lemma CleanRoot(nodes: Nodes, p: Path)
    requires Tree(nodes) && p in nodes && !nodes[p]
    ensures var rest := CleanedBelow(nodes, p, Children(nodes, p));
            Cleaned(nodes, p) == if Children(rest, p) == {} then rest - {p} else rest
  {
    hide Children, Tree, Needed;
    ChildLeftIffNeeded(nodes, p);
    forall q | q in nodes && p <= q ensures q == p || (|q| > |p| && q[|p|] in Children(nodes, p)) {
      assert |q| == |p| ==> q == p;
      if q != p {
        BelowSomeChild(nodes, p, q);
      }
    }
  }

  lemma NothingToClean(nodes: Nodes, p: Path)
    requires Tree(nodes) && (p !in nodes || nodes[p])
    ensures Cleaned(nodes, p) == nodes
  {
    forall q | q in nodes && p <= q ensures Needed(nodes, q) {
      PrefixesExist(nodes, p, q);
    }
  }

  lemma NothingCleanedYet(nodes: Nodes, p: Path)
    ensures CleanedBelow(nodes, p, {}) == nodes
  {
  }

  lemma CleanedKeys(nodes: Nodes, p: Path, done: set<string>)
    ensures CleanedBelow(nodes, p, done).Keys <= nodes.Keys
  {
  }

  /** The connection to ZooKeeper. */
  class ZooKeeper {
    var nodes: Nodes

    constructor ()
      ensures nodes == map[[] := false]
    {
      nodes := map[[] := false];
    }

    /** Fails on a node that does not exist or has children. */
    method Delete(node: Path)
      modifies this
      ensures nodes == if Children(old(nodes), node) == {} then old(nodes) - {node} else old(nodes)
    {
      if Children(nodes, node) == {} {
        nodes := nodes - {node};
      }
    }

    /** `cleanupTree`: on every tree it leaves exactly the ephemeral nodes and their ancestors under the
        node, and everything else untouched. */
    method CleanupTree(node: Path)
      requires Tree(nodes)
      modifies this
      ensures nodes == Cleaned(old(nodes), node)
      decreases |Subtree(nodes, node)|
    {
      hide Tree, Cleaned, CleanedBelow, Subtree, Children;
      if node !in nodes || nodes[node] {
        // an error, or an ephemeral node
        NothingToClean(nodes, node);
        return;
      }
      ghost var before := nodes;
      var children := Children(nodes, node);
      var left := children;
      NothingCleanedYet(before, node);
      assert children - left == {};
      while left != {}
        invariant left <= children
        invariant nodes == CleanedBelow(before, node, children - left)
        decreases left
      {
        var child :| child in left;
        ghost var done := children - left;
        CleanedIsTree(before, node, done);
        CleanedKeys(before, node, done);
        SubtreeShrinks(before, nodes, node, child);
        CleanOneMore(before, node, done, child);
        CleanupTree(node + [child]);
        left := left - {child};
        assert children - left == done + {child};
      }
      assert children - {} == children;
      CleanRoot(before, node);
      Delete(node);
    }

    /** Fails if the parent does not exist or is ephemeral; a node that exists already is no failure to
        the caller. */
    method Create(node: Path) returns (ok: bool)
      requires Tree(nodes) && node != []
      modifies this
      ensures ok == (node in old(nodes) || (Parent(node) in old(nodes) && !old(nodes)[Parent(node)]))
      ensures nodes == if ok && node !in old(nodes) then old(nodes)[node := false] else old(nodes)
    {
      if node in nodes {
        return true;
      }
      if Parent(node) !in nodes || nodes[Parent(node)] {
        return false;
      }
      nodes := nodes[node := false];
      return true;
    }

    /** `createAll`: succeeds exactly when no proper prefix is ephemeral; then every prefix exists, what
        was added is persistent, and nothing that existed is removed or changed. */
    method CreateAll(node: Path) returns (ok: bool)
      requires Tree(nodes) && node != []
      modifies this
      ensures Tree(nodes) && Extends(old(nodes), nodes, node)
      ensures ok <==> WayIsPersistent(old(nodes), node)
      ensures ok ==> PrefixesIn(nodes, node)
      decreases |node|
    {
      ghost var before := nodes;
      WayStep(nodes, node);
      if |node| > 1 {
        ok := CreateAll(Parent(node));
        if !ok {
          return;
        }
      }
      ghost var mid := nodes;
      ok := Create(node);
      CreateStep(before, mid, nodes, node, ok);
    }
  }

  predicate Prefix(p: Path, q: Path) {
    p <= q
  }

  /** No proper prefix of the path is an ephemeral node. */
  ghost predicate WayIsPersistent(nodes: Nodes, node: Path) {
    forall p :: Prefix(p, node) && p != node && p in nodes ==> !nodes[p]
  }

  ghost predicate PrefixesIn(nodes: Nodes, node: Path) {
    forall p :: Prefix(p, node) ==> p in nodes
  }

  /** Nothing is removed or changed, and only persistent prefixes of the path are added. */
  ghost predicate Extends(nodes: Nodes, more: Nodes, node: Path) {
    && (forall p :: p in nodes ==> p in more && more[p] == nodes[p])
    && (forall p :: p in more && p !in nodes ==> Prefix(p, node) && !more[p])
  }

  lemma ProperPrefixIff(p: Path, node: Path)
    requires node != []
    ensures Prefix(p, node) && p != node <==> Prefix(p, Parent(node))
  {
    if Prefix(p, node) && p != node {
      assert |p| == |node| ==> p == node;
    }
  }

  lemma WayStep(nodes: Nodes, node: Path)
    requires Tree(nodes) && node != []
    ensures WayIsPersistent(nodes, node) <==>
            (|node| > 1 ==> WayIsPersistent(nodes, Parent(node))) && (Parent(node) in nodes ==> !nodes[Parent(node)])
  {
    forall p ensures Prefix(p, node) && p != node <==> Prefix(p, Parent(node)) {
      ProperPrefixIff(p, node);
    }
  }

  /** Creating the last component after its parents. */
  lemma CreateStep(before: Nodes, mid: Nodes, after: Nodes, node: Path, ok: bool)
    requires Tree(before) && Tree(mid) && node != []
    requires if |node| > 1 then Extends(before, mid, Parent(node)) && PrefixesIn(mid, Parent(node)) else mid == before
    requires |node| > 1 ==> WayIsPersistent(before, Parent(node))
    requires ok == (node in mid || (Parent(node) in mid && !mid[Parent(node)]))
    requires after == if ok && node !in mid then mid[node := false] else mid
    ensures Tree(after) && Extends(before, after, node)
    ensures ok <==> WayIsPersistent(before, node)
    ensures ok ==> PrefixesIn(after, node)
  {
    WayStep(before, node);
    forall p ensures Prefix(p, node) && p != node <==> Prefix(p, Parent(node)) {
      ProperPrefixIff(p, node);
    }
    assert Parent(node) in mid by {
      assert Prefix(Parent(node), Parent(node));
    }
    if node in mid && node in before {
      assert Parent(node) in before;
    }
  }

  /** Cleaning leaves a tree, and the same ephemeral nodes. */
  lemma CleanedKeepsEphemerals(nodes: Nodes, root: Path)
    requires Tree(nodes) && root != []
    ensures Tree(Cleaned(nodes, root))
    ensures forall e :: e in nodes && nodes[e] ==> e in Cleaned(nodes, root) && Cleaned(nodes, root)[e]
  {
    var rest := Cleaned(nodes, root);
    forall q | q in rest && q != [] ensures Parent(q) in rest && !rest[Parent(q)] {
      if root <= Parent(q) {
        NeededUp(nodes, Parent(q), q);
      }
    }
    forall e | e in nodes && nodes[e] ensures e in rest && rest[e] {
      assert Needed(nodes, e);
    }
  }
}
