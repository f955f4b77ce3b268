/** The plan arena: which operators respect reordering of their input, and
    what later nodes and rewrites of nodes in place do to the rows of a plan. */
module Arena {
  import opened Values
  import opened Expressions
  import opened Sorting
  import opened Logical

  /** The same rows, each as often, in any order. */
  ghost predicate Perm<T>(a: seq<T>, b: seq<T>) { multiset(a) == multiset(b) }

  // ----- FlatMap -----

  lemma {:induction false} FlatMapConcat<A, B>(f: A -> seq<B>, a: seq<A>, b: seq<A>)
    ensures FlatMap(f, a + b) == FlatMap(f, a) + FlatMap(f, b)
  {
    if a == [] {
      assert a + b == b;
    } else {
      assert (a + b)[1..] == a[1..] + b;
      FlatMapConcat(f, a[1..], b);
    }
  }

  lemma {:induction false} FlatMapSame<A, B>(f: A -> seq<B>, g: A -> seq<B>, s: seq<A>)
    requires forall a | a in s :: f(a) == g(a)
    ensures FlatMap(f, s) == FlatMap(g, s)
  {
    if s != [] { FlatMapSame(f, g, s[1..]); }
  }

  lemma {:induction false} FlatMapPermEach<A, B>(f: A -> seq<B>, g: A -> seq<B>, s: seq<A>)
    requires forall a | a in s :: Perm(f(a), g(a))
    ensures Perm(FlatMap(f, s), FlatMap(g, s))
  {
    if s != [] { FlatMapPermEach(f, g, s[1..]); }
  }

  lemma {:induction false} FlatMapPerm<A, B>(f: A -> seq<B>, a: seq<A>, b: seq<A>)
    requires Perm(a, b)
    ensures Perm(FlatMap(f, a), FlatMap(f, b))
  {
    if a == [] {
      PermLength(a, b);
    } else {
      var i := PermFind(a, b);
      var b' := b[..i] + b[i + 1..];
      FlatMapPerm(f, a[1..], b');
      assert b == b[..i] + ([b[i]] + b[i + 1..]);
      FlatMapConcat(f, b[..i], [b[i]] + b[i + 1..]);
      FlatMapConcat(f, b[..i], b[i + 1..]);
      assert ([b[i]] + b[i + 1..])[1..] == b[i + 1..];
    }
  }

  lemma PermLength<T>(a: seq<T>, b: seq<T>)
    requires Perm(a, b)
    ensures |a| == |b|
  {
    assert |multiset(a)| == |multiset(b)|;
  }

  /** Where `b` holds the head of `a`; removing both leaves a permutation. */
  lemma PermFind<T>(a: seq<T>, b: seq<T>) returns (i: nat)
    requires a != [] && Perm(a, b)
    ensures i < |b| && b[i] == a[0]
    ensures Perm(a[1..], b[..i] + b[i + 1..])
  {
    assert a[0] in multiset(b);
    i :| 0 <= i < |b| && b[i] == a[0];
    assert a == [a[0]] + a[1..];
    assert b == b[..i] + ([b[i]] + b[i + 1..]);
    assert multiset(a) == multiset{a[0]} + multiset(a[1..]);
    assert multiset(b) == multiset{a[0]} + multiset(b[..i] + b[i + 1..]);
    assert multiset(a[1..]) == multiset(a) - multiset{a[0]};
  }

  /** Two duplicate-free lists of the same elements are permutations. */
  ghost predicate NoDup<T>(s: seq<T>) {
    forall i, j | 0 <= i < j < |s| :: s[i] != s[j]
  }

  lemma {:induction false} NoDupCount<T>(s: seq<T>, e: T)
    requires NoDup(s)
    ensures multiset(s)[e] == if e in s then 1 else 0
  {
    if s != [] {
      assert s == [s[0]] + s[1..];
      NoDupCount(s[1..], e);
    }
  }

  lemma NoDupPerm<T>(a: seq<T>, b: seq<T>)
    requires NoDup(a) && NoDup(b)
    requires forall e :: e in a <==> e in b
    ensures Perm(a, b)
  {
    forall e ensures multiset(a)[e] == multiset(b)[e] {
      NoDupCount(a, e);
      NoDupCount(b, e);
    }
  }

  // ----- StepAll -----

  lemma {:induction false} StepAllIsFlatMap(op: LogicalOp, rows: seq<Row>, x: Exec)
    requires RowWise(op) || op.Projection?
    ensures StepAll(op, rows, x) == FlatMap((r: Row) => Step(op, r, x), rows)
  {
    if rows != [] { StepAllIsFlatMap(op, rows[1..], x); }
  }

  lemma StepAllConcat(op: LogicalOp, a: seq<Row>, b: seq<Row>, x: Exec)
    requires RowWise(op) || op.Projection?
    ensures StepAll(op, a + b, x) == StepAll(op, a, x) + StepAll(op, b, x)
  {
    StepAllIsFlatMap(op, a + b, x);
    StepAllIsFlatMap(op, a, x);
    StepAllIsFlatMap(op, b, x);
    FlatMapConcat((r: Row) => Step(op, r, x), a, b);
  }

  lemma StepAllPerm(op: LogicalOp, a: seq<Row>, b: seq<Row>, x: Exec)
    requires RowWise(op) || op.Projection?
    requires Perm(a, b)
    ensures Perm(StepAll(op, a, x), StepAll(op, b, x))
  {
    StepAllIsFlatMap(op, a, x);
    StepAllIsFlatMap(op, b, x);
    FlatMapPerm((r: Row) => Step(op, r, x), a, b);
  }

  // ----- Dedup and MergeAll -----

  lemma {:induction false} DedupElements(rows: seq<Row>, seen: set<Row>)
    ensures NoDup(Dedup(rows, seen))
    ensures forall r :: r in Dedup(rows, seen) <==> r in rows && r !in seen
  {
    if rows != [] {
      DedupElements(rows[1..], seen);
      DedupElements(rows[1..], seen + {rows[0]});
    }
  }

  lemma DedupPerm(a: seq<Row>, b: seq<Row>)
    requires Perm(a, b)
    ensures Perm(Dedup(a, {}), Dedup(b, {}))
  {
    DedupElements(a, {});
    DedupElements(b, {});
    forall r ensures r in a <==> r in b {
      assert r in multiset(a) <==> r in multiset(b);
    }
    NoDupPerm(Dedup(a, {}), Dedup(b, {}));
  }

  ghost function MergeOne(outer: Row, inner: Row, check: bool): seq<Row> {
    if check && !Compatible(outer, inner) then [] else [inner + outer]
  }

  lemma {:induction false} MergeAllIsFlatMap(outer: Row, inners: seq<Row>, check: bool)
    ensures MergeAll(outer, inners, check) == FlatMap((r: Row) => MergeOne(outer, r, check), inners)
  {
    if inners != [] { MergeAllIsFlatMap(outer, inners[1..], check); }
  }

  lemma MergeAllPerm(outer: Row, a: seq<Row>, b: seq<Row>, check: bool)
    requires Perm(a, b)
    ensures Perm(MergeAll(outer, a, check), MergeAll(outer, b, check))
  {
    MergeAllIsFlatMap(outer, a, check);
    MergeAllIsFlatMap(outer, b, check);
    FlatMapPerm((r: Row) => MergeOne(outer, r, check), a, b);
  }

  lemma OptionalRowsPerm(row: Row, a: seq<Row>, b: seq<Row>, newVars: seq<VarId>)
    requires Perm(a, b)
    ensures Perm(OptionalRows(row, a, newVars), OptionalRows(row, b, newVars))
  {
    MergeAllPerm(row, a, b, true);
    PermLength(MergeAll(row, a, true), MergeAll(row, b, true));
  }

  lemma CallRowsPerm(
    row: Row, a: seq<Row>, b: seq<Row>, c: seq<Row>, d: seq<Row>, unions: seq<UnionBranch>)
    requires Perm(a, b) && Perm(c, d)
    ensures Perm(CallRows(row, a, c, unions), CallRows(row, b, d, unions))
  {
    DedupPerm(a + c, b + d);
    MergeAllPerm(row, a + c, b + d, false);
    MergeAllPerm(row, Dedup(a + c, {}), Dedup(b + d, {}), false);
  }

  // ----- whole operators -----

  /** Operators whose output rows do not depend on the order of the input:
      all but LIMIT and a sort under a row bound. */
  predicate OrderFree(op: LogicalOp) {
    !op.Limit? && (op.Sort? ==> op.topK.None? && op.bound.None?)
  }

  lemma PermSplit<T>(rows: seq<T>, n: nat, front: seq<T>, back: seq<T>)
    requires n <= |rows| && Perm(front, rows[..n]) && Perm(back, rows[n..])
    ensures Perm(front + back, rows)
  {
    assert rows == rows[..n] + rows[n..];
  }

  lemma FirstRun(keys: seq<SortKey>, presorted: nat, rows: seq<Row>, env: Env, le: Rank) returns (n: nat)
    requires presorted <= |keys| && rows != []
    ensures 1 <= n <= |rows|
    ensures PartialSort(keys, presorted, rows, env, le)
         == StableSort(keys, rows[..n], env, le) + PartialSort(keys, presorted, rows[n..], env, le)
  {
    n := 1 + RunLength(keys[..presorted], rows[0], rows[1..], env, le);
  }

  lemma {:induction false} PartialSortKeeps(
    keys: seq<SortKey>, presorted: nat, rows: seq<Row>, env: Env, le: Rank)
    requires presorted <= |keys|
    ensures Perm(PartialSort(keys, presorted, rows, env, le), rows)
    decreases |rows|
  {
    if rows != [] {
      var n := FirstRun(keys, presorted, rows, env, le);
      SortKeeps(keys, rows[..n], env, le);
      PartialSortKeeps(keys, presorted, rows[n..], env, le);
      PermSplit(rows, n, StableSort(keys, rows[..n], env, le), PartialSort(keys, presorted, rows[n..], env, le));
    }
  }

  lemma SortRowsKeep(op: LogicalOp, rows: seq<Row>, x: Exec)
    requires op.Sort? && op.topK.None? && op.bound.None?
    ensures Perm(SortRows(op, rows, x), rows)
  {
    SortKeeps(op.keys, rows, x.env, x.le);
    if 0 < op.presorted <= |op.keys| {
      PartialSortKeeps(op.keys, op.presorted, rows, x.env, x.le);
    }
  }

  /** Grouping that does not see the order of its rows, as counting does not
      and collecting does. */
  ghost predicate OrderBlind(keys: seq<Item>, aggregates: seq<Item>, x: Exec) {
    forall a, b | Perm(a, b) :: Perm(x.group(keys, aggregates, a), x.group(keys, aggregates, b))
  }

  ghost predicate OpBlind(op: LogicalOp, x: Exec) {
    op.Aggregation? ==> OrderBlind(op.groupBy, op.aggregates, x)
  }

  lemma ApplyPerm(op: LogicalOp, a: seq<Row>, b: seq<Row>, x: Exec)
    requires OrderFree(op) && OpBlind(op, x)
    requires Perm(a, b)
    ensures Perm(Apply(op, a, x), Apply(op, b, x))
  {
    if op.Projection? && op.distinct {
      StepAllPerm(op, a, b, x);
      DedupPerm(StepAll(op, a, x), StepAll(op, b, x));
    } else if op.Sort? {
      SortRowsKeep(op, a, x);
      SortRowsKeep(op, b, x);
    } else if RowWise(op) {
      StepAllPerm(op, a, b, x);
    }
  }

  // ====================
  // The plan arena: what later nodes and rewrites of single nodes do to the rows of a
  // plan.

  /** Operators that run no sub-plan of their own. */
  predicate Plain(op: LogicalOp) { !op.OptionalMatch? && !op.CallSubquery? }

  ghost function InputRows(nodes: seq<LogicalOp>, input: Option<nat>, x: Exec, arg: Row): seq<Row>
    requires Topological(nodes) && (input.Some? ==> input.value < |nodes|)
  {
    if input.Some? then Denote(nodes, input.value, x, arg) else [arg]
  }

  // ----- arenas that agree up to a node -----

  ghost predicate AgreeUpTo(a: seq<LogicalOp>, b: seq<LogicalOp>, id: nat) {
    id < |a| && id < |b| && forall i | 0 <= i <= id :: a[i] == b[i]
  }

  lemma {:induction false} DenoteAgrees(a: seq<LogicalOp>, b: seq<LogicalOp>, id: nat, x: Exec, arg: Row)
    requires Topological(a) && Topological(b) && AgreeUpTo(a, b, id)
    ensures Denote(a, id, x, arg) == Denote(b, id, x, arg)
    decreases id, 0
  {
    var op := a[id];
    assert InputsBelow(op, id);
    if Upstream(op).Some? { DenoteAgrees(a, b, Upstream(op).value, x, arg); }
    var rows := InputRows(a, Upstream(op), x, arg);
    match op
    case OptionalMatch(_, inner, newVars) =>
      assert inner in Inputs(op);
      forall row { DenoteAgrees(a, b, inner, x, row); }
      FlatMapSame((row: Row) => OptionalRows(row, Denote(a, inner, x, row), newVars),
                  (row: Row) => OptionalRows(row, Denote(b, inner, x, row), newVars), rows);
    case CallSubquery(_, inner, unions, _) =>
      assert inner in Inputs(op);
      assert forall k | 0 <= k < |unions| :: BranchIds(unions)[k] in Inputs(op);
      forall row
        ensures Denote(a, inner, x, row) == Denote(b, inner, x, row)
        ensures UnionRows(a, id, unions, row, x) == UnionRows(b, id, unions, row, x)
      {
        DenoteAgrees(a, b, inner, x, row);
        UnionAgrees(a, b, id, unions, row, x);
      }
      FlatMapSame(
        (row: Row) => CallRows(row, Denote(a, inner, x, row), UnionRows(a, id, unions, row, x), unions),
        (row: Row) => CallRows(row, Denote(b, inner, x, row), UnionRows(b, id, unions, row, x), unions),
        rows);
    case _ =>
  }

  lemma {:induction false} UnionAgrees(
    a: seq<LogicalOp>, b: seq<LogicalOp>, below: nat, unions: seq<UnionBranch>, arg: Row, x: Exec)
    requires Topological(a) && Topological(b)
    requires 0 < below && AgreeUpTo(a, b, below - 1)
    requires forall k | 0 <= k < |unions| :: unions[k].inner < below
    ensures UnionRows(a, below, unions, arg, x) == UnionRows(b, below, unions, arg, x)
    decreases below - 1, 1 + |unions|
  {
    if unions != [] {
      DenoteAgrees(a, b, unions[0].inner, x, arg);
      UnionAgrees(a, b, below, unions[1..], arg, x);
    }
  }

  // ----- pushing a node -----

  lemma RowWiseRows(nodes: seq<LogicalOp>, id: nat, x: Exec, arg: Row)
    requires Topological(nodes) && id < |nodes| && RowWise(nodes[id])
    ensures Upstream(nodes[id]).Some? ==> Upstream(nodes[id]).value < |nodes|
    ensures Denote(nodes, id, x, arg) == StepAll(nodes[id], InputRows(nodes, Upstream(nodes[id]), x, arg), x)
  {
    assert InputsBelow(nodes[id], id);
  }

  lemma PushTopological(nodes: seq<LogicalOp>, op: LogicalOp)
    requires Topological(nodes) && InputsBelow(op, |nodes|)
    ensures Topological(nodes + [op])
  {}

  /** A pushed node reads the rows its input had before the push. */
  lemma DenotePush(nodes: seq<LogicalOp>, op: LogicalOp, x: Exec, arg: Row)
    requires Topological(nodes) && InputsBelow(op, |nodes|) && Plain(op) && !op.Argument?
    ensures Topological(nodes + [op])
    ensures Denote(nodes + [op], |nodes|, x, arg)
         == Apply(op, InputRows(nodes, Upstream(op), x, arg), x)
  {
    PushTopological(nodes, op);
    if Upstream(op).Some? { DenoteAgrees(nodes, nodes + [op], Upstream(op).value, x, arg); }
  }

  // ----- place in the arena does not matter to a row-wise operator -----

  lemma {:induction false} ScanRowsDetached(op: LogicalOp, ids: seq<nat>, row: Row, env: Env)
    requires op.NodeScan? || op.NodeSeek?
    ensures ScanRows(op, ids, row, env) == ScanRows(Detached(op), ids, row, env)
  {
    if ids != [] { ScanRowsDetached(op, ids[1..], row, env); }
  }

  lemma {:induction false} ExpandRowsDetached(op: LogicalOp, edges: seq<(nat, nat)>, row: Row, env: Env)
    requires op.Expand?
    ensures ExpandRows(op, edges, row, env) == ExpandRows(Detached(op), edges, row, env)
  {
    if edges != [] { ExpandRowsDetached(op, edges[1..], row, env); }
  }

  lemma {:induction false} RelSeekRowsDetached(op: LogicalOp, rels: seq<nat>, row: Row, env: Env)
    requires op.RelSeek?
    ensures RelSeekRows(op, rels, row, env) == RelSeekRows(Detached(op), rels, row, env)
  {
    if rels != [] {
      RelRowsDetached(op, rels[0], row, env);
      RelSeekRowsDetached(op, rels[1..], row, env);
    }
  }

  lemma RelRowsDetached(op: LogicalOp, r: nat, row: Row, env: Env)
    requires op.RelSeek?
    ensures RelRows(op, r, row, env) == RelRows(Detached(op), r, row, env)
  {
    if env.graph.HasRel(r) {
      var src, dst := env.graph.rels[r].value.src, env.graph.rels[r].value.dst;
      assert OrientedRow(op, r, src, dst, row, env) == OrientedRow(Detached(op), r, src, dst, row, env);
      assert OrientedRow(op, r, dst, src, row, env) == OrientedRow(Detached(op), r, dst, src, row, env);
    }
  }

  lemma StepDetached(op: LogicalOp, row: Row, x: Exec)
    requires RowWise(op)
    ensures Step(op, row, x) == Step(Detached(op), row, x)
  {
    match op
    case NodeScan(_, _, _) => ScanRowsDetached(op, x.nodeOrder(Detached(op)), row, x.env);
    case NodeSeek(_, _, _, _) => ScanRowsDetached(op, x.nodeOrder(Detached(op)), row, x.env);
    case RelSeek(_, _, _, _, _, _, _, _) =>
      RelSeekRowsDetached(op, x.relOrder(Detached(op)), row, x.env);
    case Expand(_, src, _, _, types, dir, _) =>
      if src in row && row[src].NodeRef? {
        ExpandRowsDetached(op, ExpandFrom(x.env.graph, row[src].node, dir, types), row, x.env);
      }
    case _ =>
  }

  lemma {:induction false} StepAllDetached(op: LogicalOp, rows: seq<Row>, x: Exec)
    requires RowWise(op)
    ensures StepAll(op, rows, x) == StepAll(Detached(op), rows, x)
  {
    if rows != [] {
      StepDetached(op, rows[0], x);
      StepAllDetached(op, rows[1..], x);
    }
  }

  // ====================
  // Rewriting nodes of the arena in place. When the nodes that change are read only
  // inside the rewritten region, and the top of the region keeps its rows, every other
  // node of the plan keeps its rows too.

  /** Among the nodes in use, the two arenas differ only at `top` and in
      `inside`, and nothing else in use reads a node of `inside`. */
  ghost predicate Region(
    a: seq<LogicalOp>, b: seq<LogicalOp>, top: nat, inside: set<nat>, live: set<nat>)
  {
    && |a| == |b| && Topological(a) && Topological(b) && top < |a| && top !in inside
    && (forall k: nat | k in live && k != top && k !in inside ::
          k < |a| && a[k] == b[k] && forall c | c in Inputs(a[k]) :: c in live && c !in inside)
  }

  function Below(n: nat): (ids: set<nat>)
    ensures forall k: nat :: k in ids <==> k < n
  {
    if n == 0 then {} else Below(n - 1) + {n - 1}
  }

  ghost predicate SameRows(a: seq<LogicalOp>, b: seq<LogicalOp>, id: nat, x: Exec)
    requires Topological(a) && Topological(b) && id < |a| && id < |b|
  {
    forall arg :: Denote(a, id, x, arg) == Denote(b, id, x, arg)
  }

  ghost predicate PermRows(a: seq<LogicalOp>, b: seq<LogicalOp>, id: nat, x: Exec)
    requires Topological(a) && Topological(b) && id < |a| && id < |b|
  {
    forall arg :: Perm(Denote(a, id, x, arg), Denote(b, id, x, arg))
  }

  lemma SameRowsThrough(a: seq<LogicalOp>, b: seq<LogicalOp>, c: seq<LogicalOp>, id: nat, x: Exec)
    requires Topological(a) && Topological(b) && Topological(c) && id < |a| && id < |b| && id < |c|
    requires SameRows(a, b, id, x) && SameRows(b, c, id, x)
    ensures SameRows(a, c, id, x)
  {
    forall arg ensures Denote(a, id, x, arg) == Denote(c, id, x, arg) {
      assert Denote(a, id, x, arg) == Denote(b, id, x, arg);
    }
  }

  // ----- rows in the same order -----

  lemma {:induction false} LiftSame(
    a: seq<LogicalOp>, b: seq<LogicalOp>, top: nat, inside: set<nat>, live: set<nat>, id: nat, x: Exec)
    requires Region(a, b, top, inside, live)
    requires SameRows(a, b, top, x)
    requires id < |a| && id in live && id !in inside
    ensures SameRows(a, b, id, x)
    decreases id, 1
  {
    if id != top {
      forall arg ensures Denote(a, id, x, arg) == Denote(b, id, x, arg) {
        LiftSameAt(a, b, top, inside, live, id, x, arg);
      }
    }
  }

  lemma {:induction false} LiftSameAt(
    a: seq<LogicalOp>, b: seq<LogicalOp>, top: nat, inside: set<nat>, live: set<nat>, id: nat, x: Exec, arg: Row)
    requires Region(a, b, top, inside, live) && SameRows(a, b, top, x)
    requires id < |a| && id in live && id !in inside && id != top
    ensures Denote(a, id, x, arg) == Denote(b, id, x, arg)
    decreases id, 0
  {
    var op := a[id];
    assert InputsBelow(op, id);
    if Upstream(op).Some? { LiftSame(a, b, top, inside, live, Upstream(op).value, x); }
    var rows := InputRows(a, Upstream(op), x, arg);
    match op
    case OptionalMatch(_, inner, newVars) =>
      assert inner in Inputs(op);
      LiftSame(a, b, top, inside, live, inner, x);
      FlatMapSame((row: Row) => OptionalRows(row, Denote(a, inner, x, row), newVars),
                  (row: Row) => OptionalRows(row, Denote(b, inner, x, row), newVars), rows);
    case CallSubquery(_, inner, unions, _) =>
      assert inner in Inputs(op);
      BranchesInInputs(op);
      LiftSame(a, b, top, inside, live, inner, x);
      forall row ensures UnionRows(a, id, unions, row, x) == UnionRows(b, id, unions, row, x) {
        LiftSameUnions(a, b, top, inside, live, id, unions, row, x);
      }
      FlatMapSame(
        (row: Row) => CallRows(row, Denote(a, inner, x, row), UnionRows(a, id, unions, row, x), unions),
        (row: Row) => CallRows(row, Denote(b, inner, x, row), UnionRows(b, id, unions, row, x), unions),
        rows);
    case _ =>
  }

  lemma BranchesInInputs(op: LogicalOp)
    requires op.CallSubquery?
    ensures forall k | 0 <= k < |op.unions| :: op.unions[k].inner in Inputs(op)
  {
    forall k | 0 <= k < |op.unions| ensures op.unions[k].inner in Inputs(op) {
      assert BranchIds(op.unions)[k] in BranchIds(op.unions);
    }
  }

  lemma {:induction false} LiftSameUnions(
    a: seq<LogicalOp>, b: seq<LogicalOp>, top: nat, inside: set<nat>, live: set<nat>, below: nat,
    unions: seq<UnionBranch>, arg: Row, x: Exec)
    requires Region(a, b, top, inside, live) && SameRows(a, b, top, x) && 0 < below <= |a|
    requires forall k | 0 <= k < |unions| :: unions[k].inner < below && unions[k].inner in live && unions[k].inner !in inside
    ensures UnionRows(a, below, unions, arg, x) == UnionRows(b, below, unions, arg, x)
    decreases below - 1, 2, |unions|
  {
    if unions != [] {
      LiftSame(a, b, top, inside, live, unions[0].inner, x);
      LiftSameUnions(a, b, top, inside, live, below, unions[1..], arg, x);
    }
  }

  lemma InputsAgree(nodes: seq<LogicalOp>, out: seq<LogicalOp>)
    requires |out| == |nodes| && Topological(nodes)
    requires forall k | 0 <= k < |nodes| :: Inputs(out[k]) == Inputs(nodes[k])
    ensures Topological(out)
  {
    forall k | 0 <= k < |nodes| ensures InputsBelow(out[k], k) { assert InputsBelow(nodes[k], k); }
  }

  // ----- plans as forests -----

  /** Each node is the input of at most one node in use, at most once. */
  ghost predicate Forest(nodes: seq<LogicalOp>, live: set<nat>) {
    && (forall i: nat, j: nat, c | i in live && j in live && i < j < |nodes| && c in Inputs(nodes[i]) ::
          c !in Inputs(nodes[j]))
    && (forall i: nat | i in live && i < |nodes| :: NoDup(Inputs(nodes[i])))
  }

  /** `child` is read by `parent` and by no other node in use. */
  lemma OnlyParent(nodes: seq<LogicalOp>, live: set<nat>, parent: nat, child: nat)
    requires Forest(nodes, live) && parent in live && parent < |nodes| && child in Inputs(nodes[parent])
    ensures forall k: nat | k in live && k < |nodes| && k != parent :: child !in Inputs(nodes[k])
  {}

  /** A plan in the arena: the nodes in use hold the root and everything they
      read, each read once and the root never; what a rewrite has cut off is
      a scan. */
  ghost predicate PlanOk(root: nat, nodes: seq<LogicalOp>, live: set<nat>) {
    && Topological(nodes) && Forest(nodes, live) && root < |nodes| && root in live
    && (forall k: nat | k in live :: k < |nodes| && forall c | c in Inputs(nodes[k]) :: c in live && c != root)
    && (forall k: nat | k < |nodes| && k !in live :: nodes[k].NodeScan?)
  }
}
