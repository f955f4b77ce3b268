/** The tree a plan is shown as: built by recursion over the arena, freed by
    a loop. */
module PlanTrees {
  import opened Values
  import opened Logical
  import opened Arena

  datatype Tree = Tree(id: nat, children: seq<Tree>)

  function BuildNode(nodes: seq<LogicalOp>, id: nat): Tree
    requires Topological(nodes) && id < |nodes|
    decreases id, 1, 0
  {
    assert InputsBelow(nodes[id], id);
    Tree(id, BuildAll(nodes, id, Inputs(nodes[id])))
  }

  function BuildAll(nodes: seq<LogicalOp>, below: nat, ids: seq<nat>): (ts: seq<Tree>)
    requires Topological(nodes) && below < |nodes| && forall c | c in ids :: c < below
    ensures |ts| == |ids|
    decreases below, 0, |ids|
  {
    if ids == [] then []
    else
      assert ids[0] in ids && forall c | c in ids[1..] :: c in ids;
      [BuildNode(nodes, ids[0])] + BuildAll(nodes, below, ids[1..])
  }

  /** The ids in the tree, the root first. */
  function TreeIds(t: Tree): seq<nat>
    decreases t, 0
  {
    [t.id] + ForestIds(t.children)
  }

  function ForestIds(ts: seq<Tree>): seq<nat>
    decreases ts, 0
  {
    if ts == [] then [] else TreeIds(ts[0]) + ForestIds(ts[1..])
  }

  // ----- what is reached -----

  /** A path of inputs from `from` to `to`. */
  ghost predicate IsPath(nodes: seq<LogicalOp>, path: seq<nat>, from: nat, to: nat) {
    && path != [] && path[0] == from && path[|path| - 1] == to
    && (forall k | 0 <= k < |path| :: path[k] < |nodes|)
    && (forall k | 0 <= k < |path| - 1 :: path[k + 1] in Inputs(nodes[path[k]]))
  }

  ghost predicate Reachable(nodes: seq<LogicalOp>, from: nat, to: nat) {
    exists path :: IsPath(nodes, path, from, to)
  }

  lemma {:induction false} BuiltIsReached(nodes: seq<LogicalOp>, id: nat, c: nat)
    requires Topological(nodes) && id < |nodes| && c in TreeIds(BuildNode(nodes, id))
    ensures c <= id && Reachable(nodes, id, c)
    decreases id, 1, 0
  {
    if c == id {
      assert IsPath(nodes, [id], id, id);
    } else {
      assert InputsBelow(nodes[id], id);
      var child := BuiltChild(nodes, id, Inputs(nodes[id]), c);
      BuiltIsReached(nodes, child, c);
      var path :| IsPath(nodes, path, child, c);
      assert IsPath(nodes, [id] + path, id, c);
    }
  }

  lemma {:induction false} BuiltChild(nodes: seq<LogicalOp>, below: nat, ids: seq<nat>, c: nat) returns (child: nat)
    requires Topological(nodes) && below < |nodes| && forall i | i in ids :: i < below
    requires c in ForestIds(BuildAll(nodes, below, ids))
    ensures child in ids && c in TreeIds(BuildNode(nodes, child))
    decreases |ids|
  {
    assert ids[0] in ids && forall i | i in ids[1..] :: i in ids;
    if c in TreeIds(BuildNode(nodes, ids[0])) {
      child := ids[0];
    } else {
      child := BuiltChild(nodes, below, ids[1..], c);
    }
  }

  lemma {:induction false} ReachedIsBuilt(nodes: seq<LogicalOp>, path: seq<nat>, id: nat, c: nat)
    requires Topological(nodes) && id < |nodes| && IsPath(nodes, path, id, c)
    ensures c in TreeIds(BuildNode(nodes, id))
    decreases |path|
  {
    if |path| > 1 {
      assert InputsBelow(nodes[id], id);
      var rest := path[1..];
      forall k | 0 <= k < |rest| - 1 ensures rest[k + 1] in Inputs(nodes[rest[k]]) {
        assert rest[k] == path[k + 1] && rest[k + 1] == path[k + 2];
      }
      assert IsPath(nodes, rest, path[1], c);
      ReachedIsBuilt(nodes, rest, path[1], c);
      ChildBuilt(nodes, id, Inputs(nodes[id]), path[1], c);
    }
  }

  lemma {:induction false} ChildBuilt(nodes: seq<LogicalOp>, below: nat, ids: seq<nat>, child: nat, c: nat)
    requires Topological(nodes) && below < |nodes| && forall i | i in ids :: i < below
    requires child in ids && c in TreeIds(BuildNode(nodes, child))
    ensures c in ForestIds(BuildAll(nodes, below, ids))
    decreases |ids|
  {
    assert ids[0] in ids && forall i | i in ids[1..] :: i in ids;
    if child != ids[0] { ChildBuilt(nodes, below, ids[1..], child, c); }
  }

  // ----- each node once -----

  /** Within the plan, a node of a subtree other than its root has its reader
      there too. */
  lemma {:induction false} ReaderInside(nodes: seq<LogicalOp>, id: nat, c: nat) returns (p: nat)
    requires Topological(nodes) && id < |nodes| && c in TreeIds(BuildNode(nodes, id)) && c != id
    ensures p < |nodes| && p in TreeIds(BuildNode(nodes, id)) && c in Inputs(nodes[p])
    decreases id
  {
    assert InputsBelow(nodes[id], id);
    var child := BuiltChild(nodes, id, Inputs(nodes[id]), c);
    if child == c {
      p := id;
    } else {
      p := ReaderInside(nodes, child, c);
      ChildBuilt(nodes, id, Inputs(nodes[id]), child, p);
    }
  }

  lemma {:induction false} TreeLive(root: nat, nodes: seq<LogicalOp>, live: set<nat>, id: nat, c: nat)
    requires PlanOk(root, nodes, live) && id in live && c in TreeIds(BuildNode(nodes, id))
    ensures c in live
    decreases id
  {
    if c != id {
      assert InputsBelow(nodes[id], id);
      var child := BuiltChild(nodes, id, Inputs(nodes[id]), c);
      TreeLive(root, nodes, live, child, c);
    }
  }

  /** If two subtrees share a node, one holds the other's root. */
  lemma {:induction false} SharedRoot(root: nat, nodes: seq<LogicalOp>, live: set<nat>, a: nat, b: nat, c: nat)
    requires PlanOk(root, nodes, live) && a in live && b in live && c < |nodes|
    requires c in TreeIds(BuildNode(nodes, a)) && c in TreeIds(BuildNode(nodes, b))
    ensures a in TreeIds(BuildNode(nodes, b)) || b in TreeIds(BuildNode(nodes, a))
    decreases |nodes| - c
  {
    if c != a && c != b {
      var p := ReaderInside(nodes, a, c);
      var q := ReaderInside(nodes, b, c);
      TreeLive(root, nodes, live, a, p);
      TreeLive(root, nodes, live, b, q);
      OnlyParent(nodes, live, p, c);
      assert InputsBelow(nodes[p], p);
      SharedRoot(root, nodes, live, a, b, p);
    }
  }

  /** Two inputs of one node have disjoint subtrees. */
  lemma SiblingsApart(root: nat, nodes: seq<LogicalOp>, live: set<nat>, parent: nat, a: nat, b: nat, c: nat)
    requires PlanOk(root, nodes, live) && parent in live
    requires a in Inputs(nodes[parent]) && b in Inputs(nodes[parent]) && a != b
    requires c in TreeIds(BuildNode(nodes, a))
    ensures c !in TreeIds(BuildNode(nodes, b))
  {
    assert InputsBelow(nodes[parent], parent);
    if c in TreeIds(BuildNode(nodes, b)) {
      BuiltIsReached(nodes, a, c);
      SharedRoot(root, nodes, live, a, b, c);
      if a in TreeIds(BuildNode(nodes, b)) {
        NotUnderSibling(root, nodes, live, parent, a, b);
      } else {
        NotUnderSibling(root, nodes, live, parent, b, a);
      }
    }
  }

  lemma NotUnderSibling(root: nat, nodes: seq<LogicalOp>, live: set<nat>, parent: nat, a: nat, b: nat)
    requires PlanOk(root, nodes, live) && parent in live
    requires a in Inputs(nodes[parent]) && b in Inputs(nodes[parent]) && a != b
    ensures a !in TreeIds(BuildNode(nodes, b))
  {
    assert InputsBelow(nodes[parent], parent);
    if a in TreeIds(BuildNode(nodes, b)) {
      var q := ReaderInside(nodes, b, a);
      TreeLive(root, nodes, live, b, q);
      OnlyParent(nodes, live, parent, a);
      BuiltIsReached(nodes, b, q);
      assert false;
    }
  }

  lemma {:induction false} NoDupTree(root: nat, nodes: seq<LogicalOp>, live: set<nat>, id: nat)
    requires PlanOk(root, nodes, live) && id in live
    ensures NoDup(TreeIds(BuildNode(nodes, id)))
    decreases id, 1, 0
  {
    assert InputsBelow(nodes[id], id);
    var ids := Inputs(nodes[id]);
    NoDupForest(root, nodes, live, id, ids);
    var below := ForestIds(BuildAll(nodes, id, ids));
    forall c | c in below ensures c != id {
      var child := BuiltChild(nodes, id, ids, c);
      BuiltIsReached(nodes, child, c);
    }
    Disjoint([id], below);
  }

  lemma {:induction false} NoDupForest(
    root: nat, nodes: seq<LogicalOp>, live: set<nat>, parent: nat, ids: seq<nat>)
    requires PlanOk(root, nodes, live) && parent in live && NoDup(ids)
    requires forall c | c in ids :: c < parent && c in Inputs(nodes[parent])
    ensures NoDup(ForestIds(BuildAll(nodes, parent, ids)))
    decreases parent, 0, |ids|
  {
    if ids != [] {
      assert ids[0] in ids;
      NoDupTree(root, nodes, live, ids[0]);
      assert forall c | c in ids[1..] :: c in ids;
      NoDupForest(root, nodes, live, parent, ids[1..]);
      var first, rest := TreeIds(BuildNode(nodes, ids[0])), ForestIds(BuildAll(nodes, parent, ids[1..]));
      forall c | c in first ensures c !in rest {
        if c in rest {
          var child := BuiltChild(nodes, parent, ids[1..], c);
          SiblingsApart(root, nodes, live, parent, ids[0], child, c);
        }
      }
      Disjoint(first, rest);
    }
  }

  lemma Disjoint<T>(a: seq<T>, b: seq<T>)
    requires NoDup(a) && NoDup(b) && forall e | e in a :: e !in b
    ensures NoDup(a + b)
  {
    forall i, j | 0 <= i < j < |a + b| ensures (a + b)[i] != (a + b)[j] {
      if i < |a| <= j { assert a[i] in a && b[j - |a|] in b; }
    }
  }

  /** Building the tree visits exactly the nodes reachable from the root, each
      once. */
  lemma VisitsEachOnce(root: nat, nodes: seq<LogicalOp>, live: set<nat>)
    requires PlanOk(root, nodes, live)
    ensures NoDup(TreeIds(BuildNode(nodes, root)))
    ensures forall id :: id in TreeIds(BuildNode(nodes, root)) <==> Reachable(nodes, root, id)
  {
    NoDupTree(root, nodes, live, root);
    forall id ensures id in TreeIds(BuildNode(nodes, root)) <==> Reachable(nodes, root, id) {
      if id in TreeIds(BuildNode(nodes, root)) { BuiltIsReached(nodes, root, id); }
      if Reachable(nodes, root, id) {
        var path :| IsPath(nodes, path, root, id);
        ReachedIsBuilt(nodes, path, root, id);
      }
    }
  }

  // ----- freeing a tree -----

  function Size(t: Tree): nat
    decreases t, 0
  {
    1 + TotalSize(t.children)
  }

  function TotalSize(ts: seq<Tree>): nat
    decreases ts, 0
  {
    if ts == [] then 0 else Size(ts[0]) + TotalSize(ts[1..])
  }

  lemma {:induction false} ForestConcat(a: seq<Tree>, b: seq<Tree>)
    ensures ForestIds(a + b) == ForestIds(a) + ForestIds(b)
    ensures TotalSize(a + b) == TotalSize(a) + TotalSize(b)
  {
    if a == [] {
      assert a + b == b;
    } else {
      assert (a + b)[1..] == a[1..] + b;
      ForestConcat(a[1..], b);
    }
  }

  lemma PopOne(rest: seq<Tree>, node: Tree)
    ensures multiset(ForestIds(rest + [node])) == multiset{node.id} + multiset(ForestIds(rest + node.children))
    ensures TotalSize(rest + node.children) < TotalSize(rest + [node])
  {
    ForestConcat(rest, [node]);
    ForestConcat(rest, node.children);
    assert ForestIds([node]) == TreeIds(node) + ForestIds([node][1..]);
    assert TotalSize([node]) == Size(node) + TotalSize([node][1..]);
    assert ForestIds([node]) == [node.id] + ForestIds(node.children);
  }

  /** Every node below the root is freed or still to be. */
  ghost predicate Owed(t: Tree, freed: seq<nat>, pending: seq<Tree>) {
    multiset(freed) + multiset(ForestIds(pending)) == multiset(ForestIds(t.children))
  }

  lemma PopFrees(t: Tree, freed: seq<nat>, rest: seq<Tree>, node: Tree)
    requires Owed(t, freed, rest + [node])
    ensures Owed(t, freed + [node.id], rest + node.children)
    ensures TotalSize(rest + node.children) < TotalSize(rest + [node])
  {
    PopOne(rest, node);
  }

  lemma AllFreed(t: Tree, freed: seq<nat>)
    requires Owed(t, freed, [])
    ensures multiset([t.id] + freed) == multiset(TreeIds(t))
  {}

  /** Frees the children one at a time off a stack, never recursing: every
      node below the root is freed once. */
  method DropChildren(t: Tree) returns (freed: seq<nat>)
    ensures multiset([t.id] + freed) == multiset(TreeIds(t))
  {
    freed := [];
    var pending := t.children;
    while pending != []
      invariant Owed(t, freed, pending)
      decreases TotalSize(pending)
    {
      var node, rest := pending[|pending| - 1], pending[..|pending| - 1];
      assert pending == rest + [node];
      PopFrees(t, freed, rest, node);
      pending := rest + node.children;
      freed := freed + [node.id];
    }
    AllFreed(t, freed);
  }
}
