/** The sort pass over the arena: rows kept, order right, and exactly when. */
module OrderPass {
  import opened Values
  import opened Expressions
  import opened Conjuncts
  import opened Sorting
  import opened Logical
  import opened Arena
  import opened Walks
  import opened RangeBounds
  import opened Accesses
  import opened NodeSeeks
  import opened FilterPush
  import opened SortOrder
  import opened RelSeeks
  import opened Runs

  // ----- what an ordered scan promises -----

  predicate KeyNotAfter(dir: SortDirection, nulls: Option<NullsOrder>, a: Value, b: Value, le: Rank) {
    if a.Null? || b.Null? then
      nulls.Some? ==> ValueNotAfter(SortKey(Variable(0), dir, nulls.value), a, b, le)
    else ValueNotAfter(SortKey(Variable(0), dir, First), a, b, le)
  }

  function StoredKey(g: Graph, id: nat, key: string): Value {
    if g.HasNode(id) then LookupKey(g.nodes[id].value.props, key) else Null
  }

  ghost predicate IdsInOrder(
    ids: seq<nat>, key: string, dir: SortDirection, nulls: Option<NullsOrder>, g: Graph, le: Rank)
  {
    forall i, j | 0 <= i < j < |ids| ::
      KeyNotAfter(dir, nulls, StoredKey(g, ids[i], key), StoredKey(g, ids[j], key), le)
  }

  /** A scan told an order meets its nodes in that order of their keys, with
      the nodes that have none where it is told to put them. */
  ghost predicate OrderedScans(x: Exec) {
    forall op: LogicalOp | op.NodeSeek? && op.access.ByRange? && op.access.order.Some? ::
      IdsInOrder(x.nodeOrder(op), op.access.bounds.key, op.access.order.value, op.access.nulls,
                 x.env.graph, x.le)
  }

  /** The store keeps no null property. */
  ghost predicate NoNullProps(g: Graph) {
    forall id: nat, k | g.HasNode(id) && k in g.nodes[id].value.props :: !g.nodes[id].value.props[k].Null?
  }

  // ----- the scan, seen through the path -----

  /** What a node contributes through `f`. */
  ghost function NodeThrough(op: LogicalOp, f: Row -> seq<Row>, row: Row, id: nat, env: Env): seq<Row>
    requires op.NodeScan? || op.NodeSeek?
  {
    if NodeFound(op, id, row, env) then f(row[op.v := NodeRef(id)]) else []
  }

  ghost function Through(op: LogicalOp, f: Row -> seq<Row>, row: Row, env: Env): nat -> seq<Row>
    requires op.NodeScan? || op.NodeSeek?
  {
    (id: nat) => NodeThrough(op, f, row, id, env)
  }

  lemma {:induction false} ScanThrough(op: LogicalOp, f: Row -> seq<Row>, ids: seq<nat>, row: Row, env: Env)
    requires op.NodeScan? || op.NodeSeek?
    ensures FlatMap(f, ScanRows(op, ids, row, env)) == FlatMap(Through(op, f, row, env), ids)
  {
    if ids != [] {
      var rest, first := ScanRows(op, ids[1..], row, env), row[op.v := NodeRef(ids[0])];
      ScanThrough(op, f, ids[1..], row, env);
      assert ([first] + rest)[1..] == rest;
    }
  }

  /** Two scans of the same variable that agree on every node `f` keeps. */
  lemma ScansAgree(old': LogicalOp, new': LogicalOp, f: Row -> seq<Row>, row: Row, x: Exec)
    requires old'.NodeScan? || old'.NodeSeek?
    requires new'.NodeSeek? && new'.v == old'.v && ExecValid(x)
    requires forall id: nat ::
      NodeThrough(old', f, row, id, x.env) == NodeThrough(new', f, row, id, x.env)
    ensures Perm(FlatMap(f, StepScan(old', row, x)), FlatMap(f, StepScan(new', row, x)))
  {
    if old'.v in row {
      if row[old'.v].NodeRef? {
        var id := row[old'.v].node;
        assert row[old'.v := NodeRef(id)] == row;
        assert NodeThrough(old', f, row, id, x.env) == NodeThrough(new', f, row, id, x.env);
        assert [row][1..] == [];
        assert FlatMap(f, [row]) == f(row) + FlatMap(f, []);
      }
    } else {
      var here, there := x.nodeOrder(Detached(old')), x.nodeOrder(Detached(new'));
      ScanThrough(old', f, here, row, x.env);
      ScanThrough(new', f, there, row, x.env);
      forall id: nat ensures id in here <==> id in there {
        assert id in here <==> x.env.graph.HasNode(id);
      }
      NoDupPerm(here, there);
      FlatMapPerm(Through(new', f, row, x.env), here, there);
      FlatMapSame(Through(old', f, row, x.env), Through(new', f, row, x.env), here);
    }
  }

  // ----- sorted output -----

  /** Each row `f` makes of a scanned row has the node's key as its own. */
  ghost predicate KeepsKey(f: Row -> seq<Row>, lead: SortKey, v: VarId, key: string, row: Row, env: Env) {
    (forall id: nat :: |f(row[v := NodeRef(id)])| <= 1)
    && forall id: nat, t | t in f(row[v := NodeRef(id)]) ::
         Eval(lead.expr, t, env) == StoredKey(env.graph, id, key)
  }

  lemma {:induction false} MadeFrom(
    op: LogicalOp, f: Row -> seq<Row>, ids: seq<nat>, row: Row, t: Row, env: Env) returns (j: nat)
    requires op.NodeScan? || op.NodeSeek?
    requires t in FlatMap(Through(op, f, row, env), ids)
    ensures j < |ids| && NodeFound(op, ids[j], row, env) && t in f(row[op.v := NodeRef(ids[j])])
  {
    if t in NodeThrough(op, f, row, ids[0], env) {
      j := 0;
    } else {
      j := MadeFrom(op, f, ids[1..], row, t, env);
      j := j + 1;
    }
  }

  lemma SortedFront(keys: seq<SortKey>, front: seq<Row>, rest: seq<Row>, env: Env, le: Rank)
    requires |front| <= 1 && Sorted(keys, rest, env, le)
    requires forall a, b | a in front && b in rest :: NotAfter(keys, a, b, env, le)
    ensures Sorted(keys, front + rest, env, le)
  {}

  lemma {:induction false} ScanSorted(
    op: LogicalOp, f: Row -> seq<Row>, lead: SortKey, ids: seq<nat>, row: Row, x: Exec)
    requires op.NodeSeek? && op.access.ByRange? && NoNullProps(x.env.graph)
    requires op.access.nulls == Some(lead.nulls) || op.access.nulls.None?
    requires IdsInOrder(ids, op.access.bounds.key, lead.direction, op.access.nulls, x.env.graph, x.le)
    requires KeepsKey(f, lead, op.v, op.access.bounds.key, row, x.env)
    ensures Sorted([lead], FlatMap(Through(op, f, row, x.env), ids), x.env, x.le)
  {
    if ids != [] {
      var h := Through(op, f, row, x.env);
      var front, rest := h(ids[0]), FlatMap(h, ids[1..]);
      forall i, j | 0 <= i < j < |ids[1..]|
        ensures KeyNotAfter(lead.direction, op.access.nulls,
                            StoredKey(x.env.graph, ids[1..][i], op.access.bounds.key),
                            StoredKey(x.env.graph, ids[1..][j], op.access.bounds.key), x.le)
      {
        assert ids[1..][i] == ids[i + 1] && ids[1..][j] == ids[j + 1];
      }
      ScanSorted(op, f, lead, ids[1..], row, x);
      forall a, b | a in front && b in rest ensures NotAfter([lead], a, b, x.env, x.le) {
        var j := MadeFrom(op, f, ids[1..], row, b, x.env);
        FoundInOrder(op, f, lead, ids[0], ids[j + 1], a, b, row, x);
      }
      assert front == [] || front == f(row[op.v := NodeRef(ids[0])]);
      SortedFront([lead], front, rest, x.env, x.le);
    }
  }

  lemma FoundInOrder(
    op: LogicalOp, f: Row -> seq<Row>, lead: SortKey, p: nat, q: nat, a: Row, b: Row, row: Row, x: Exec)
    requires op.NodeSeek? && op.access.ByRange? && NoNullProps(x.env.graph)
    requires op.access.nulls == Some(lead.nulls) || op.access.nulls.None?
    requires NodeFound(op, p, row, x.env) && NodeFound(op, q, row, x.env)
    requires KeyNotAfter(lead.direction, op.access.nulls,
                         StoredKey(x.env.graph, p, op.access.bounds.key),
                         StoredKey(x.env.graph, q, op.access.bounds.key), x.le)
    requires KeepsKey(f, lead, op.v, op.access.bounds.key, row, x.env)
    requires a in f(row[op.v := NodeRef(p)]) && b in f(row[op.v := NodeRef(q)])
    ensures NotAfter([lead], a, b, x.env, x.le)
  {
    assert [lead][1..] == [];
    assert NotAfter([], a, b, x.env, x.le);
    var key := op.access.bounds.key;
    var u, w := StoredKey(x.env.graph, p, key), StoredKey(x.env.graph, q, key);
    assert Eval(lead.expr, a, x.env) == u && Eval(lead.expr, b, x.env) == w;
    if op.access.nulls.None? { assert !u.Null? && !w.Null?; }
    assert ValueNotAfter(lead, u, w, x.le);
  }

  // ----- one site -----

  /** A sort the pass rewrites: its bound is not set yet, and range scans that
      are not ordered hold no nulls. */
  ghost predicate OrderShape(
    nodes: seq<LogicalOp>, i: nat, d: Descent, v: VarId, key: string, catalog: Catalog, round: Rounding)
    requires Topological(nodes)
  {
    && i < |nodes| && nodes[i].Sort? && nodes[i].keys != [] && nodes[i].presorted == 0
    && nodes[i].topK.None? && nodes[i].bound.None?
    && nodes[i].input < i && Descends(nodes, nodes[i].input, nodes[i].keys[0].expr, [], d)
    && d.key == Property(Variable(v), key)
    && d.scan < |nodes|
    && OrderedScan(nodes[d.scan], d.key, d.preds, nodes[i].keys[0], catalog, round).Some?
    && (nodes[d.scan].NodeSeek? ==> nodes[d.scan].access.nulls.None?)
  }

  /** Such a sort over a clean path: the key is the same value all the way
      down, and no projection between a filter that offers a range and the
      scan puts out a variable of the range. */
  ghost predicate OrderSite(
    nodes: seq<LogicalOp>, i: nat, d: Descent, v: VarId, key: string, catalog: Catalog, round: Rounding)
    requires Topological(nodes)
  {
    && OrderShape(nodes, i, d, v, key, catalog, round)
    && CleanPath(nodes, nodes[i].input, nodes[i].keys[0].expr)
    && RangesStable(nodes, nodes[i].input, v, key, round)
  }

  ghost predicate OrderExec(x: Exec) {
    ExecValid(x) && TotalPreorder(x.le) && OrderedScans(x) && NoNullProps(x.env.graph)
  }

  function NewScan(nodes: seq<LogicalOp>, i: nat, d: Descent, catalog: Catalog, round: Rounding): LogicalOp
    requires i < |nodes| && nodes[i].Sort? && nodes[i].keys != [] && d.scan < |nodes|
    requires OrderedScan(nodes[d.scan], d.key, d.preds, nodes[i].keys[0], catalog, round).Some?
  {
    OrderedScan(nodes[d.scan], d.key, d.preds, nodes[i].keys[0], catalog, round).value
  }

  lemma {:induction false} VisitsUnread(e: Expr, v: VarId)
    ensures forall visit | visit in VisitsOf(e, v) :: v !in Vars(visit.value)
  {
    if IsAnd(e) {
      VisitsUnread(e.lhs, v);
      VisitsUnread(e.rhs, v);
    }
  }

  lemma RangeOrNullUnread(pred: Expr, v: VarId, key: string, round: Rounding)
    requires RangeOrNull(pred, v, key, round).Some?
    ensures v !in BoundVars(RangeOrNull(pred, v, key, round).value)
  {
    var c := FirstBesideNullIn(ConjunctsOf(pred), v, key, round);
    var ranges := NotNullTests(DisjunctsOf(c), v, key);
    VisitsUnread(ranges[0], v);
    OnKeyWithin(VisitsOf(ranges[0], v), key);
    AddAllUnread(NoBounds(key), OnKey(VisitsOf(ranges[0], v), key), round, v);
  }

  /** The path makes rows only of nodes the ordered scan finds. */
  lemma SameThrough(
    nodes: seq<LogicalOp>, i: nat, d: Descent, v: VarId, key: string, catalog: Catalog,
    round: Rounding, row: Row, id: nat, x: Exec)
    requires Topological(nodes) && OrderSite(nodes, i, d, v, key, catalog, round)
    ensures var f := PathOf(nodes, nodes[i].input, d.scan, x.env);
      NodeThrough(nodes[d.scan], f, row, id, x.env)
      == NodeThrough(NewScan(nodes, i, d, catalog, round), f, row, id, x.env)
  {
    var scan, new', env := nodes[d.scan], NewScan(nodes, i, d, catalog, round), x.env;
    var bound := row[v := NodeRef(id)];
    if scan.NodeScan? && NodeOk(env.graph, id, scan.labels)
       && PathRow(nodes, nodes[i].input, d.scan, bound, env).Some?
    {
      var p := FirstPredIn(d.preds, v, key, round);
      var props := env.graph.nodes[id].value.props;
      PathInRange(nodes, nodes[i].input, nodes[i].keys[0].expr, [], d, p, v, key, round, bound, id, props, env);
      RangeOrNullUnread(p, v, key, round);
      assert AccessFinds(new'.access, id, props, bound, env);
      AccessStable(new'.access, id, props, v, NodeRef(id), row, env);
    }
  }

  lemma PathKeepsKey(
    nodes: seq<LogicalOp>, i: nat, d: Descent, v: VarId, key: string, catalog: Catalog,
    round: Rounding, row: Row, x: Exec)
    requires Topological(nodes) && OrderSite(nodes, i, d, v, key, catalog, round)
    ensures KeepsKey(PathOf(nodes, nodes[i].input, d.scan, x.env), nodes[i].keys[0], v, key, row, x.env)
  {
    var f, lead := PathOf(nodes, nodes[i].input, d.scan, x.env), nodes[i].keys[0];
    forall id: nat, t | t in f(row[v := NodeRef(id)])
      ensures Eval(lead.expr, t, x.env) == StoredKey(x.env.graph, id, key)
    {
      var bound := row[v := NodeRef(id)];
      PathKey(nodes, nodes[i].input, lead.expr, [], d, bound, x.env);
      assert Eval(Variable(v), bound, x.env) == NodeRef(id);
    }
  }

  /** The ordered scan's rows, through the path, are in order of the key. */
  lemma PathSorted(
    nodes: seq<LogicalOp>, i: nat, d: Descent, v: VarId, key: string, catalog: Catalog,
    round: Rounding, row: Row, x: Exec)
    requires Topological(nodes) && OrderSite(nodes, i, d, v, key, catalog, round) && OrderExec(x)
    ensures var new' := NewScan(nodes, i, d, catalog, round);
      Sorted(nodes[i].keys[..1], PathAll(nodes, nodes[i].input, d.scan, StepScan(new', row, x), x.env), x.env, x.le)
  {
    var new', f := NewScan(nodes, i, d, catalog, round), PathOf(nodes, nodes[i].input, d.scan, x.env);
    var lead := nodes[i].keys[0];
    assert nodes[i].keys[..1] == [lead];
    var rows := StepScan(new', row, x);
    if v in row {
      assert rows == [] || rows == [row];
      assert [row][1..] == [];
      assert |FlatMap(f, rows)| <= 1;
    } else {
      var ids := x.nodeOrder(Detached(new'));
      NewScanKey(nodes, i, d, v, key, catalog, round);
      ScanThrough(new', f, ids, row, x.env);
      PathKeepsKey(nodes, i, d, v, key, catalog, round, row, x);
      ScanSorted(new', f, lead, ids, row, x);
    }
  }

  lemma NewScanKey(
    nodes: seq<LogicalOp>, i: nat, d: Descent, v: VarId, key: string, catalog: Catalog, round: Rounding)
    requires Topological(nodes) && OrderShape(nodes, i, d, v, key, catalog, round)
    ensures var new', lead := NewScan(nodes, i, d, catalog, round), nodes[i].keys[0];
      && new'.NodeSeek? && new'.source.None? && new'.v == v && new'.access.ByRange?
      && new'.access.bounds.key == key && new'.access.order == Some(lead.direction)
      && (new'.access.nulls.None? || new'.access.nulls == Some(lead.nulls))
  {
    if nodes[d.scan].NodeScan? {
      var p := FirstPredIn(d.preds, v, key, round);
      var c := FirstBesideNullIn(ConjunctsOf(p), v, key, round);
      AddAllKey(NoBounds(key), OnKey(VisitsOf(NotNullTests(DisjunctsOf(c), v, key)[0], v), key), round);
    }
  }

  lemma {:induction false} PassThrough(input: nat, rows: seq<Row>, x: Exec)
    ensures StepAll(Projection(input, false, [], true), rows, x) == rows
  {
    if rows != [] { PassThrough(input, rows[1..], x); }
  }

  lemma RootScanDenotes(nodes: seq<LogicalOp>, id: nat, x: Exec, arg: Row)
    requires Topological(nodes) && id < |nodes|
    requires (nodes[id].NodeScan? || nodes[id].NodeSeek?) && nodes[id].source.None?
    ensures Denote(nodes, id, x, arg) == StepScan(nodes[id], arg, x)
  {
    SingleStep(nodes[id], arg, x);
  }

  lemma OrderAtShape(
    nodes: seq<LogicalOp>, i: nat, d: Descent, v: VarId, key: string, catalog: Catalog, round: Rounding)
    requires Topological(nodes) && OrderShape(nodes, i, d, v, key, catalog, round)
    ensures d.scan <= nodes[i].input && nodes[d.scan].source.None? && nodes[d.scan].v == v
    ensures nodes[d.scan].NodeScan? || nodes[d.scan].NodeSeek?
    ensures var out, sort := OrderAt(nodes, i, catalog, round), nodes[i];
      out[d.scan] == NewScan(nodes, i, d, catalog, round)
      && out[i] == (if |sort.keys| == 1 then Projection(sort.input, false, [], true)
                    else Sort(sort.input, sort.keys, sort.topK, sort.bound, 1))
      && forall k | 0 <= k < |nodes| && k != i && k != d.scan :: out[k] == nodes[k]
  {
    DescentBelow(nodes, nodes[i].input, nodes[i].keys[0].expr, [], d);
  }

  lemma OrderInputs(
    nodes: seq<LogicalOp>, i: nat, d: Descent, v: VarId, key: string, catalog: Catalog,
    round: Rounding, x: Exec, arg: Row)
    requires Topological(nodes) && Topological(OrderAt(nodes, i, catalog, round))
    requires OrderSite(nodes, i, d, v, key, catalog, round) && OrderExec(x)
    ensures var out, sort := OrderAt(nodes, i, catalog, round), nodes[i];
      Perm(Denote(nodes, sort.input, x, arg), Denote(out, sort.input, x, arg))
      && Sorted(sort.keys[..1], Denote(out, sort.input, x, arg), x.env, x.le)
  {
    var out, sort := OrderAt(nodes, i, catalog, round), nodes[i];
    var new', f := NewScan(nodes, i, d, catalog, round), PathOf(nodes, sort.input, d.scan, x.env);
    OrderAtShape(nodes, i, d, v, key, catalog, round);
    NewScanKey(nodes, i, d, v, key, catalog, round);
    RootScanDenotes(nodes, d.scan, x, arg);
    RootScanDenotes(out, d.scan, x, arg);
    PathRows(nodes, nodes, sort.input, sort.keys[0].expr, [], d, x, arg);
    PathRows(nodes, out, sort.input, sort.keys[0].expr, [], d, x, arg);
    forall id: nat ensures NodeThrough(nodes[d.scan], f, arg, id, x.env) == NodeThrough(new', f, arg, id, x.env) {
      SameThrough(nodes, i, d, v, key, catalog, round, arg, id, x);
    }
    ScansAgree(nodes[d.scan], new', f, arg, x);
    PathSorted(nodes, i, d, v, key, catalog, round, arg, x);
  }

  /** The rewritten site: the rows of the sort, in an order the sort allows. */
  lemma OrderAtServes(
    nodes: seq<LogicalOp>, i: nat, d: Descent, v: VarId, key: string, catalog: Catalog,
    round: Rounding, x: Exec, arg: Row)
    requires Topological(nodes) && Topological(OrderAt(nodes, i, catalog, round))
    requires OrderSite(nodes, i, d, v, key, catalog, round) && OrderExec(x)
    ensures var out := OrderAt(nodes, i, catalog, round);
      && Perm(Denote(nodes, i, x, arg), Denote(out, i, x, arg))
      && Sorted(nodes[i].keys, Denote(out, i, x, arg), x.env, x.le)
  {
    OrderAtShape(nodes, i, d, v, key, catalog, round);
    OrderInputs(nodes, i, d, v, key, catalog, round, x, arg);
    SiteServed(nodes, OrderAt(nodes, i, catalog, round), i, x, arg);
  }

  lemma SiteServed(nodes: seq<LogicalOp>, out: seq<LogicalOp>, i: nat, x: Exec, arg: Row)
    requires Topological(nodes) && Topological(out) && i < |nodes| == |out|
    requires nodes[i].Sort? && nodes[i].keys != [] && nodes[i].presorted == 0 && nodes[i].input < i
    requires nodes[i].topK.None? && nodes[i].bound.None?
    requires OrderExec(x)
    requires var sort := nodes[i];
      out[i] == if |sort.keys| == 1 then Projection(sort.input, false, [], true)
                else Sort(sort.input, sort.keys, sort.topK, sort.bound, 1)
    requires var sort := nodes[i];
      Perm(Denote(nodes, sort.input, x, arg), Denote(out, sort.input, x, arg))
      && Sorted(sort.keys[..1], Denote(out, sort.input, x, arg), x.env, x.le)
    ensures Perm(Denote(nodes, i, x, arg), Denote(out, i, x, arg))
    ensures Sorted(nodes[i].keys, Denote(out, i, x, arg), x.env, x.le)
  {
    var sort := nodes[i];
    var before, after := Denote(nodes, sort.input, x, arg), Denote(out, sort.input, x, arg);
    SortServed(sort, out[i], before, after, x);
    assert Denote(nodes, i, x, arg) == Apply(sort, before, x);
    assert Denote(out, i, x, arg) == Apply(out[i], after, x);
  }

  lemma SortServed(
    sort: LogicalOp, served: LogicalOp, before: seq<Row>, after: seq<Row>, x: Exec)
    requires sort.Sort? && sort.keys != [] && sort.topK.None? && sort.bound.None? && TotalPreorder(x.le)
    requires served == (if |sort.keys| == 1 then Projection(sort.input, false, [], true)
                        else Sort(sort.input, sort.keys, sort.topK, sort.bound, 1))
    requires Perm(before, after) && Sorted(sort.keys[..1], after, x.env, x.le)
    ensures Perm(Apply(sort, before, x), Apply(served, after, x))
    ensures Sorted(sort.keys, Apply(served, after, x), x.env, x.le)
  {
    SortRowsKeep(sort, before, x);
    if |sort.keys| == 1 { SortDropped(sort, after, x); } else { SortShrunk(sort, after, x); }
  }

  lemma SortDropped(sort: LogicalOp, after: seq<Row>, x: Exec)
    requires sort.Sort? && |sort.keys| == 1 && Sorted(sort.keys[..1], after, x.env, x.le)
    ensures var out := Apply(Projection(sort.input, false, [], true), after, x);
      out == after && Sorted(sort.keys, out, x.env, x.le)
  {
    assert sort.keys[..1] == sort.keys;
    PassThrough(sort.input, after, x);
  }

  lemma SortShrunk(sort: LogicalOp, after: seq<Row>, x: Exec)
    requires sort.Sort? && |sort.keys| > 1 && sort.topK.None? && sort.bound.None? && TotalPreorder(x.le)
    requires Sorted(sort.keys[..1], after, x.env, x.le)
    ensures var out := Apply(Sort(sort.input, sort.keys, sort.topK, sort.bound, 1), after, x);
      Perm(out, after) && Sorted(sort.keys, out, x.env, x.le)
  {
    var keys := sort.keys;
    PresortedRows(sort.input, keys, after, x);
    PartialSortIsSort(keys, 1, after, x.env, x.le);
    SortKeeps(keys, after, x.env, x.le);
    SortSorts(keys, after, x.env, x.le);
  }

  lemma PresortedRows(input: nat, keys: seq<SortKey>, rows: seq<Row>, x: Exec)
    requires keys != []
    ensures Apply(Sort(input, keys, None, None, 1), rows, x) == PartialSort(keys, 1, rows, x.env, x.le)
  {}

  // ====================
  // Exactly when serving a sort from an ordered scan keeps its rows.

  /** Node `id`, scanned for `arg`, has a row that reaches the sort. */
  ghost predicate SortReaches(nodes: seq<LogicalOp>, i: nat, d: Descent, v: VarId, arg: Row, id: nat, env: Env)
    requires Topological(nodes) && i < |nodes| && nodes[i].Sort? && nodes[i].input < i
    requires d.scan < |nodes| && (nodes[d.scan].NodeScan? || nodes[d.scan].NodeSeek?)
  {
    && NodeFound(nodes[d.scan], id, arg, env)
    && (v in arg ==> arg[v] == NodeRef(id))
    && PathRow(nodes, nodes[i].input, d.scan, arg[v := NodeRef(id)], env).Some?
  }

  // ----- two scans, the new one finding less -----

  /** A node the old scan finds for `row`, that `f` makes rows of. */
  ghost predicate KeptBy(op: LogicalOp, f: Row -> seq<Row>, row: Row, id: nat, env: Env)
    requires op.NodeScan? || op.NodeSeek?
  {
    NodeFound(op, id, row, env) && (op.v in row ==> row[op.v] == NodeRef(id)) && f(row[op.v := NodeRef(id)]) != []
  }

  lemma UnboundScanIff(old': LogicalOp, new': LogicalOp, f: Row -> seq<Row>, row: Row, x: Exec)
    requires (old'.NodeScan? || old'.NodeSeek?) && new'.NodeSeek? && new'.v == old'.v && ExecValid(x)
    requires forall id: nat | NodeFound(new', id, row, x.env) :: NodeFound(old', id, row, x.env)
    requires old'.v !in row
    ensures Perm(FlatMap(f, StepScan(old', row, x)), FlatMap(f, StepScan(new', row, x)))
        <==> forall id: nat | KeptBy(old', f, row, id, x.env) :: NodeFound(new', id, row, x.env)
  {
    var here, there := x.nodeOrder(Detached(old')), x.nodeOrder(Detached(new'));
    var g, h := Through(old', f, row, x.env), Through(new', f, row, x.env);
    ScanThrough(old', f, here, row, x.env);
    ScanThrough(new', f, there, row, x.env);
    forall id: nat ensures id in here <==> id in there { assert id in here <==> x.env.graph.HasNode(id); }
    NoDupPerm(here, there);
    PermIffEach(h, g, here, there);
    EachIff(old', new', f, there, row, x.env);
  }

  lemma EachIff(
    old': LogicalOp, new': LogicalOp, f: Row -> seq<Row>, ids: seq<nat>, row: Row, env: Env)
    requires (old'.NodeScan? || old'.NodeSeek?) && new'.NodeSeek? && new'.v == old'.v && old'.v !in row
    requires forall id: nat | NodeFound(new', id, row, env) :: NodeFound(old', id, row, env)
    requires forall id: nat :: id in ids <==> env.graph.HasNode(id)
    ensures (forall id | id in ids :: Through(new', f, row, env)(id) == Through(old', f, row, env)(id))
        <==> forall id: nat | KeptBy(old', f, row, id, env) :: NodeFound(new', id, row, env)
  {
    forall id: nat
      ensures Through(new', f, row, env)(id) == Through(old', f, row, env)(id)
        <==> (KeptBy(old', f, row, id, env) ==> NodeFound(new', id, row, env))
    {}
    forall id: nat | KeptBy(old', f, row, id, env) ensures id in ids { assert env.graph.HasNode(id); }
  }

  lemma BoundScanIff(old': LogicalOp, new': LogicalOp, f: Row -> seq<Row>, row: Row, x: Exec)
    requires (old'.NodeScan? || old'.NodeSeek?) && new'.NodeSeek? && new'.v == old'.v
    requires forall id: nat | NodeFound(new', id, row, x.env) :: NodeFound(old', id, row, x.env)
    requires old'.v in row
    ensures Perm(FlatMap(f, StepScan(old', row, x)), FlatMap(f, StepScan(new', row, x)))
        <==> forall id: nat | KeptBy(old', f, row, id, x.env) :: NodeFound(new', id, row, x.env)
  {
    assert [row][1..] == [];
    assert FlatMap(f, [row]) == f(row) + FlatMap(f, []);
    if row[old'.v].NodeRef? {
      var id := row[old'.v].node;
      assert row[old'.v := NodeRef(id)] == row;
      PermNothing(FlatMap(f, StepScan(old', row, x)), []);
      if KeptBy(old', f, row, id, x.env) && !NodeFound(new', id, row, x.env) {
        assert FlatMap(f, StepScan(new', row, x)) == [];
      } else {
        assert FlatMap(f, StepScan(old', row, x)) == FlatMap(f, StepScan(new', row, x));
      }
    }
  }

  lemma ScanIff(old': LogicalOp, new': LogicalOp, f: Row -> seq<Row>, row: Row, x: Exec)
    requires (old'.NodeScan? || old'.NodeSeek?) && new'.NodeSeek? && new'.v == old'.v && ExecValid(x)
    requires forall id: nat | NodeFound(new', id, row, x.env) :: NodeFound(old', id, row, x.env)
    ensures Perm(FlatMap(f, StepScan(old', row, x)), FlatMap(f, StepScan(new', row, x)))
        <==> forall id: nat | KeptBy(old', f, row, id, x.env) :: NodeFound(new', id, row, x.env)
  {
    if old'.v in row { BoundScanIff(old', new', f, row, x); } else { UnboundScanIff(old', new', f, row, x); }
  }

  // ----- the site -----

  lemma NewFindsLess(
    nodes: seq<LogicalOp>, i: nat, d: Descent, v: VarId, key: string, catalog: Catalog,
    round: Rounding, id: nat, row: Row, env: Env)
    requires Topological(nodes) && OrderShape(nodes, i, d, v, key, catalog, round)
    ensures nodes[d.scan].NodeScan? || nodes[d.scan].NodeSeek?
    ensures var new' := NewScan(nodes, i, d, catalog, round);
      new'.NodeSeek? && (NodeFound(new', id, row, env) ==> NodeFound(nodes[d.scan], id, row, env))
  {}

  lemma ServedRows(sort: LogicalOp, served: LogicalOp, rows: seq<Row>, x: Exec)
    requires sort.Sort? && sort.topK.None? && sort.bound.None?
    requires served == (if |sort.keys| == 1 then Projection(sort.input, false, [], true)
                        else Sort(sort.input, sort.keys, sort.topK, sort.bound, 1))
    ensures Perm(Apply(sort, rows, x), rows) && Perm(Apply(served, rows, x), rows)
  {
    SortRowsKeep(sort, rows, x);
    if |sort.keys| == 1 { PassThrough(sort.input, rows, x); } else { SortRowsKeep(served, rows, x); }
  }

  lemma SiteRows(
    nodes: seq<LogicalOp>, i: nat, d: Descent, v: VarId, key: string, catalog: Catalog,
    round: Rounding, x: Exec, arg: Row)
    requires Topological(nodes) && Topological(OrderAt(nodes, i, catalog, round))
    requires OrderShape(nodes, i, d, v, key, catalog, round)
    ensures nodes[d.scan].NodeScan? || nodes[d.scan].NodeSeek?
    ensures NewScan(nodes, i, d, catalog, round).NodeSeek?
    ensures var f := PathOf(nodes, nodes[i].input, d.scan, x.env);
      && Perm(Denote(nodes, i, x, arg), FlatMap(f, StepScan(nodes[d.scan], arg, x)))
      && Perm(Denote(OrderAt(nodes, i, catalog, round), i, x, arg),
              FlatMap(f, StepScan(NewScan(nodes, i, d, catalog, round), arg, x)))
  {
    var out, sort := OrderAt(nodes, i, catalog, round), nodes[i];
    OrderAtShape(nodes, i, d, v, key, catalog, round);
    NewScanKey(nodes, i, d, v, key, catalog, round);
    RootScanDenotes(nodes, d.scan, x, arg);
    RootScanDenotes(out, d.scan, x, arg);
    PathRows(nodes, nodes, sort.input, sort.keys[0].expr, [], d, x, arg);
    PathRows(nodes, out, sort.input, sort.keys[0].expr, [], d, x, arg);
    SiteApplies(nodes, out, i, x, arg);
  }

  lemma SiteApplies(nodes: seq<LogicalOp>, out: seq<LogicalOp>, i: nat, x: Exec, arg: Row)
    requires Topological(nodes) && Topological(out) && i < |nodes| == |out|
    requires nodes[i].Sort? && nodes[i].input < i && nodes[i].topK.None? && nodes[i].bound.None?
    requires var sort := nodes[i];
      out[i] == if |sort.keys| == 1 then Projection(sort.input, false, [], true)
                else Sort(sort.input, sort.keys, sort.topK, sort.bound, 1)
    ensures Perm(Denote(nodes, i, x, arg), Denote(nodes, nodes[i].input, x, arg))
    ensures Perm(Denote(out, i, x, arg), Denote(out, nodes[i].input, x, arg))
  {
    var sort := nodes[i];
    ServedRows(sort, out[i], Denote(nodes, sort.input, x, arg), x);
    ServedRows(sort, out[i], Denote(out, sort.input, x, arg), x);
    assert Denote(nodes, i, x, arg) == Apply(sort, Denote(nodes, sort.input, x, arg), x);
    assert Denote(out, i, x, arg) == Apply(out[i], Denote(out, sort.input, x, arg), x);
  }

  /** The sort, served, has the rows it had exactly when the ordered scan finds
      every node with a row that reaches the sort. */
  lemma ServedIff(
    nodes: seq<LogicalOp>, i: nat, d: Descent, v: VarId, key: string, catalog: Catalog,
    round: Rounding, x: Exec, arg: Row)
    requires Topological(nodes) && Topological(OrderAt(nodes, i, catalog, round)) && ExecValid(x)
    requires OrderShape(nodes, i, d, v, key, catalog, round)
    ensures nodes[d.scan].NodeScan? || nodes[d.scan].NodeSeek?
    ensures NewScan(nodes, i, d, catalog, round).NodeSeek?
    ensures Perm(Denote(nodes, i, x, arg), Denote(OrderAt(nodes, i, catalog, round), i, x, arg))
        <==> forall id: nat | SortReaches(nodes, i, d, v, arg, id, x.env) ::
               NodeFound(NewScan(nodes, i, d, catalog, round), id, arg, x.env)
  {
    var scan, new', f := nodes[d.scan], NewScan(nodes, i, d, catalog, round), PathOf(nodes, nodes[i].input, d.scan, x.env);
    SiteRows(nodes, i, d, v, key, catalog, round, x, arg);
    OrderAtShape(nodes, i, d, v, key, catalog, round);
    NewScanKey(nodes, i, d, v, key, catalog, round);
    forall id: nat | NodeFound(new', id, arg, x.env) ensures NodeFound(scan, id, arg, x.env) {
      NewFindsLess(nodes, i, d, v, key, catalog, round, id, arg, x.env);
    }
    ScanIff(scan, new', f, arg, x);
    KeptReaches(nodes, i, d, v, arg, new', x.env);
    PermEqual(Denote(nodes, i, x, arg), FlatMap(f, StepScan(scan, arg, x)),
              Denote(OrderAt(nodes, i, catalog, round), i, x, arg), FlatMap(f, StepScan(new', arg, x)));
  }

  lemma PermEqual<T>(a: seq<T>, p: seq<T>, b: seq<T>, q: seq<T>)
    requires Perm(a, p) && Perm(b, q)
    ensures Perm(a, b) <==> Perm(p, q)
  {}

  lemma KeptReaches(nodes: seq<LogicalOp>, i: nat, d: Descent, v: VarId, arg: Row, new': LogicalOp, env: Env)
    requires Topological(nodes) && i < |nodes| && nodes[i].Sort? && nodes[i].input < i && d.scan < |nodes|
    requires (nodes[d.scan].NodeScan? || nodes[d.scan].NodeSeek?) && nodes[d.scan].v == v && new'.NodeSeek?
    ensures var f := PathOf(nodes, nodes[i].input, d.scan, env);
      (forall id: nat | KeptBy(nodes[d.scan], f, arg, id, env) :: NodeFound(new', id, arg, env))
      <==> forall id: nat | SortReaches(nodes, i, d, v, arg, id, env) :: NodeFound(new', id, arg, env)
  {
    var f := PathOf(nodes, nodes[i].input, d.scan, env);
    forall id: nat ensures KeptBy(nodes[d.scan], f, arg, id, env) <==> SortReaches(nodes, i, d, v, arg, id, env) {}
  }

  // ----- a lower bound that is null at the scan -----

  lemma {:induction false} NullStays(r: RangeValues, extra: seq<ExtraBound>, row: Row, env: Env)
    requires r.lo == Some(Null)
    ensures Tighten(r, extra, row, env).lo == Some(Null)
    decreases |extra|
  {
    if extra != [] { NullStays(TightenOne(r, extra[0], Eval(extra[0].value, row, env)), extra[1..], row, env); }
  }

  /** With a lower bound that is null at the scan, the ordered scan finds
      exactly the nodes without the key. */
  lemma NullBoundFinds(
    b: Bounds, order: Option<SortDirection>, nulls: NullsOrder, id: nat, props: map<string, Value>,
    row: Row, env: Env)
    requires b.lo.Some? && Eval(b.lo.value, row, env).Null?
    ensures AccessFinds(ByRange(b, order, Some(nulls)), id, props, row, env)
        <==> LookupKey(props, b.key).Null?
  {
    var hi := if b.hi.Some? then Some(Eval(b.hi.value, row, env)) else None;
    var hi' := if hi == Some(Null) then None else hi;
    NullStays(RangeValues(Some(Null), b.loInclusive, hi', b.hiInclusive), b.extra, row, env);
  }

  /** So where the lower bound reads, say, an alias the scan does not have yet,
      the sort keeps its rows exactly when every node that reaches it lacks
      the key. */
  lemma UnboundBoundIff(
    nodes: seq<LogicalOp>, i: nat, d: Descent, v: VarId, key: string, catalog: Catalog,
    round: Rounding, u: VarId, x: Exec, arg: Row)
    requires Topological(nodes) && Topological(OrderAt(nodes, i, catalog, round)) && ExecValid(x)
    requires OrderShape(nodes, i, d, v, key, catalog, round) && nodes[d.scan].NodeScan?
    requires var b := FirstRangeOrNull(d.preds, v, key, round).value;
      b.lo.Some? && NullWithout(b.lo.value, u) && u !in arg
    ensures Perm(Denote(nodes, i, x, arg), Denote(OrderAt(nodes, i, catalog, round), i, x, arg))
        <==> forall id: nat | SortReaches(nodes, i, d, v, arg, id, x.env) ::
               LookupKey(x.env.graph.nodes[id].value.props, key).Null?
  {
    var b, lead := FirstRangeOrNull(d.preds, v, key, round).value, nodes[i].keys[0];
    var new' := NewScan(nodes, i, d, catalog, round);
    ServedIff(nodes, i, d, v, key, catalog, round, x, arg);
    NewScanKey(nodes, i, d, v, key, catalog, round);
    NullWithoutIsNull(b.lo.value, u, arg, x.env);
    forall id: nat | SortReaches(nodes, i, d, v, arg, id, x.env)
      ensures NodeFound(new', id, arg, x.env) <==> LookupKey(x.env.graph.nodes[id].value.props, key).Null?
    {
      NullBoundFinds(b, Some(lead.direction), lead.nulls, id, x.env.graph.nodes[id].value.props, arg, x.env);
    }
  }

  // ====================
  // Serving one sort spoils no other: what the pass needs of its sites can be read off
  // the arena it starts from.

  lemma OrderAtInputs(nodes: seq<LogicalOp>, i: nat, catalog: Catalog, round: Rounding)
    requires Topological(nodes)
    ensures forall k | 0 <= k < |nodes| :: Inputs(OrderAt(nodes, i, catalog, round)[k]) == Inputs(nodes[k])
    ensures Topological(OrderAt(nodes, i, catalog, round))
  {
    InputsAgree(nodes, OrderAt(nodes, i, catalog, round));
  }

  /** Where the pass would serve sort `j`, the site is clean. */
  ghost predicate SiteClean(nodes: seq<LogicalOp>, j: nat, catalog: Catalog, round: Rounding)
    requires Topological(nodes)
  {
    OrderAt(nodes, j, catalog, round) != nodes ==>
      exists d, v, key :: OrderSite(nodes, j, d, v, key, catalog, round)
  }

  ghost predicate SitesClean(nodes: seq<LogicalOp>, from: nat, catalog: Catalog, round: Rounding)
    requires Topological(nodes)
  {
    forall j | from <= j < |nodes| :: SiteClean(nodes, j, catalog, round)
  }

  // ----- a descent looks only at its path -----

  /** The arenas agree on the path from `cursor` and at its end. */
  ghost predicate SamePath(a: seq<LogicalOp>, b: seq<LogicalOp>, cursor: nat, s: nat)
    requires Topological(a) && cursor < |a|
    decreases cursor
  {
    && cursor < |b| && a[cursor] == b[cursor]
    && (cursor != s && OnPath(a[cursor]) ==>
          assert a[cursor].input in Inputs(a[cursor]) && InputsBelow(a[cursor], cursor);
          SamePath(a, b, a[cursor].input, s))
  }

  lemma {:induction false} CleanPathCarries(
    a: seq<LogicalOp>, b: seq<LogicalOp>, cursor: nat, key: Expr, preds: seq<Expr>, d: Descent)
    requires Topological(a) && Topological(b) && Descends(a, cursor, key, preds, d)
    requires SamePath(a, b, cursor, d.scan)
    ensures cursor < |b| && CleanPath(b, cursor, key) == CleanPath(a, cursor, key)
    decreases cursor
  {
    DescentBelow(a, cursor, key, preds, d);
    var op := a[cursor];
    if OnPath(op) {
      assert op.input in Inputs(op) && InputsBelow(op, cursor);
      if op.Filter? { CleanPathCarries(a, b, op.input, key, preds + [op.pred], d); }
      else { CleanPathCarries(a, b, op.input, ResolveAlias(key, op.items), preds, d); }
    }
  }

  lemma {:induction false} StableCarries(
    a: seq<LogicalOp>, b: seq<LogicalOp>, cursor: nat, key: Expr, preds: seq<Expr>, d: Descent,
    v: VarId, vars: set<VarId>)
    requires Topological(a) && Topological(b) && Descends(a, cursor, key, preds, d)
    requires SamePath(a, b, cursor, d.scan)
    ensures cursor < |b| && StableBelow(b, cursor, v, vars) == StableBelow(a, cursor, v, vars)
    decreases cursor
  {
    DescentBelow(a, cursor, key, preds, d);
    var op := a[cursor];
    if OnPath(op) {
      assert op.input in Inputs(op) && InputsBelow(op, cursor);
      if op.Filter? { StableCarries(a, b, op.input, key, preds + [op.pred], d, v, vars); }
      else { StableCarries(a, b, op.input, ResolveAlias(key, op.items), preds, d, v, vars); }
    }
  }

  lemma {:induction false} RangesCarry(
    a: seq<LogicalOp>, b: seq<LogicalOp>, cursor: nat, key: Expr, preds: seq<Expr>, d: Descent,
    v: VarId, k: string, round: Rounding)
    requires Topological(a) && Topological(b) && Descends(a, cursor, key, preds, d)
    requires SamePath(a, b, cursor, d.scan)
    ensures cursor < |b| && RangesStable(b, cursor, v, k, round) == RangesStable(a, cursor, v, k, round)
    decreases cursor
  {
    DescentBelow(a, cursor, key, preds, d);
    var op := a[cursor];
    if OnPath(op) {
      assert op.input in Inputs(op) && InputsBelow(op, cursor);
      if op.Filter? {
        RangesCarry(a, b, op.input, key, preds + [op.pred], d, v, k, round);
        var range := RangeOrNull(op.pred, v, k, round);
        if range.Some? { StableCarries(a, b, op.input, key, preds + [op.pred], d, v, BoundVars(range.value)); }
      } else {
        RangesCarry(a, b, op.input, ResolveAlias(key, op.items), preds, d, v, k, round);
      }
    }
  }

  // ----- a descent after a site was served -----

  /** Whatever the key, a descent from here ends at scan `s`. */
  lemma {:induction false} SameEnd(
    a: seq<LogicalOp>, b: seq<LogicalOp>, cursor: nat, key: Expr, preds: seq<Expr>, d: Descent,
    key': Expr, preds': seq<Expr>, d': Descent)
    requires Topological(a) && Topological(b) && |a| == |b|
    requires Descends(a, cursor, key, preds, d) && Descends(b, cursor, key', preds', d')
    requires forall k | 0 <= k <= cursor && k != d.scan :: b[k] == a[k]
    requires d.scan < |b| && (b[d.scan].NodeScan? || b[d.scan].NodeSeek?)
    ensures d'.scan == d.scan
    decreases cursor
  {
    DescentBelow(a, cursor, key, preds, d);
    var op := a[cursor];
    if OnPath(op) && cursor != d.scan {
      assert op.input in Inputs(op) && InputsBelow(op, cursor);
      if op.Filter? {
        SameEnd(a, b, op.input, key, preds + [op.pred], d, key', preds' + [op.pred], d');
      } else {
        SameEnd(a, b, op.input, ResolveAlias(key, op.items), preds, d, ResolveAlias(key', op.items), preds', d');
      }
    }
  }

  /** A descent after site `i` was served ends at the scan that serves it, or
      goes where it went before. */
  lemma {:induction false} DescentAfter(
    nodes: seq<LogicalOp>, out: seq<LogicalOp>, i: nat, d: Descent, v: VarId, k: string, catalog: Catalog,
    round: Rounding, cursor: nat, key: Expr, preds: seq<Expr>, d': Descent)
    requires Topological(nodes) && Topological(out) && OrderShape(nodes, i, d, v, k, catalog, round)
    requires out == OrderAt(nodes, i, catalog, round)
    requires Descends(out, cursor, key, preds, d')
    ensures d'.scan == d.scan || (Descends(nodes, cursor, key, preds, d') && SamePath(nodes, out, cursor, d'.scan))
    decreases cursor
  {
    OrderAtShape(nodes, i, d, v, k, catalog, round);
    NewScanKey(nodes, i, d, v, k, catalog, round);
    DescentBelow(out, cursor, key, preds, d');
    var op := out[cursor];
    if cursor == i {
      EndsAtServed(nodes, out, i, d, v, k, catalog, round, key, preds, d');
    } else if cursor != d.scan && OnPath(op) {
      assert op.input in Inputs(op) && InputsBelow(op, cursor);
      if op.Filter? {
        DescentAfter(nodes, out, i, d, v, k, catalog, round, op.input, key, preds + [op.pred], d');
      } else {
        DescentAfter(nodes, out, i, d, v, k, catalog, round, op.input, ResolveAlias(key, op.items), preds, d');
      }
    }
  }

  lemma EndsAtServed(
    nodes: seq<LogicalOp>, out: seq<LogicalOp>, i: nat, d: Descent, v: VarId, k: string, catalog: Catalog,
    round: Rounding, key: Expr, preds: seq<Expr>, d': Descent)
    requires Topological(nodes) && Topological(out) && OrderShape(nodes, i, d, v, k, catalog, round)
    requires out == OrderAt(nodes, i, catalog, round) && Descends(out, i, key, preds, d')
    ensures d'.scan == d.scan
  {
    OrderAtShape(nodes, i, d, v, k, catalog, round);
    NewScanKey(nodes, i, d, v, k, catalog, round);
    var lead := nodes[i].keys[0].expr;
    assert out[i].Projection?;
    SameEnd(nodes, out, nodes[i].input, lead, [], d, ResolveAlias(key, []), preds, d');
  }

  // ----- the other sites stay clean -----

  /** Where the pass rewrites something, it found a scan to serve the sort. */
  lemma OrderAtFound(nodes: seq<LogicalOp>, j: nat, catalog: Catalog, round: Rounding) returns (d: Descent)
    requires Topological(nodes) && OrderAt(nodes, j, catalog, round) != nodes
    ensures j < |nodes| && nodes[j].Sort? && nodes[j].keys != [] && nodes[j].presorted == 0 && nodes[j].input < |nodes|
    ensures Descends(nodes, nodes[j].input, nodes[j].keys[0].expr, [], d) && d.scan < |nodes|
    ensures OrderedScan(nodes[d.scan], d.key, d.preds, nodes[j].keys[0], catalog, round).Some?
  {
    d := Descend(nodes, nodes[j].input, nodes[j].keys[0].expr, []).value;
  }

  /** And where it found one, it rewrites the sort. */
  lemma FoundRewrites(nodes: seq<LogicalOp>, j: nat, d: Descent, catalog: Catalog, round: Rounding)
    requires Topological(nodes)
    requires j < |nodes| && nodes[j].Sort? && nodes[j].keys != [] && nodes[j].presorted == 0 && nodes[j].input < j
    requires Descends(nodes, nodes[j].input, nodes[j].keys[0].expr, [], d) && d.scan < |nodes|
    requires OrderedScan(nodes[d.scan], d.key, d.preds, nodes[j].keys[0], catalog, round).Some?
    ensures OrderAt(nodes, j, catalog, round) != nodes
  {
    var sort, out := nodes[j], OrderAt(nodes, j, catalog, round);
    DescentBelow(nodes, sort.input, sort.keys[0].expr, [], d);
    assert out[j] != nodes[j];
  }

  /** A clean site seen from an arena that is the same along its path. */
  lemma SiteCarries(
    a: seq<LogicalOp>, b: seq<LogicalOp>, j: nat, d: Descent, v: VarId, key: string, catalog: Catalog, round: Rounding)
    requires Topological(a) && Topological(b) && OrderSite(a, j, d, v, key, catalog, round)
    requires j < |b| && b[j] == a[j] && d.scan < |b| && b[d.scan] == a[d.scan]
    requires Descends(b, b[j].input, b[j].keys[0].expr, [], d) && SamePath(a, b, a[j].input, d.scan)
    ensures OrderSite(b, j, d, v, key, catalog, round)
  {
    var lead := a[j].keys[0].expr;
    CleanPathCarries(a, b, a[j].input, lead, [], d);
    RangesCarry(a, b, a[j].input, lead, [], d, v, key, round);
  }

  lemma {:induction false} SamePathEnd(
    a: seq<LogicalOp>, b: seq<LogicalOp>, cursor: nat, key: Expr, preds: seq<Expr>, d: Descent)
    requires Topological(a) && Descends(a, cursor, key, preds, d) && SamePath(a, b, cursor, d.scan)
    ensures d.scan < |a| && d.scan < |b| && b[d.scan] == a[d.scan]
    decreases cursor
  {
    DescentBelow(a, cursor, key, preds, d);
    var op := a[cursor];
    if cursor != d.scan {
      assert op.input in Inputs(op) && InputsBelow(op, cursor);
      if op.Filter? { SamePathEnd(a, b, op.input, key, preds + [op.pred], d); }
      else { SamePathEnd(a, b, op.input, ResolveAlias(key, op.items), preds, d); }
    }
  }

  /** A scan that serves a sort is told an order, and serves no other. */
  lemma ServesOne(
    nodes: seq<LogicalOp>, i: nat, d: Descent, v: VarId, k: string, catalog: Catalog, round: Rounding,
    key: Expr, preds: seq<Expr>, lead: SortKey)
    requires Topological(nodes) && OrderShape(nodes, i, d, v, k, catalog, round)
    ensures OrderedScan(NewScan(nodes, i, d, catalog, round), key, preds, lead, catalog, round).None?
  {
    NewScanKey(nodes, i, d, v, k, catalog, round);
  }

  lemma SiteStaysClean(
    nodes: seq<LogicalOp>, out: seq<LogicalOp>, i: nat, d: Descent, v: VarId, k: string, catalog: Catalog,
    round: Rounding, j: nat)
    requires Topological(nodes) && Topological(out) && OrderShape(nodes, i, d, v, k, catalog, round)
    requires out == OrderAt(nodes, i, catalog, round) && i < j < |nodes| && SiteClean(nodes, j, catalog, round)
    ensures SiteClean(out, j, catalog, round)
  {
    OrderAtShape(nodes, i, d, v, k, catalog, round);
    if OrderAt(out, j, catalog, round) != out {
      var d' := OrderAtFound(out, j, catalog, round);
      var lead := out[j].keys[0];
      assert InputsBelow(nodes[j], j) && nodes[j].input in Inputs(nodes[j]);
      DescentAfter(nodes, out, i, d, v, k, catalog, round, out[j].input, lead.expr, [], d');
      ServesOne(nodes, i, d, v, k, catalog, round, d'.key, d'.preds, lead);
      assert d'.scan != d.scan;
      SamePathEnd(nodes, out, nodes[j].input, lead.expr, [], d');
      FoundRewrites(nodes, j, d', catalog, round);
      var d'', v', k' :| OrderSite(nodes, j, d'', v', k', catalog, round);
      SiteCarries(nodes, out, j, d', v', k', catalog, round);
    }
  }

  /** Serving a clean site leaves the later ones clean. */
  lemma SitesStayClean(nodes: seq<LogicalOp>, i: nat, catalog: Catalog, round: Rounding)
    requires Topological(nodes) && Topological(OrderAt(nodes, i, catalog, round))
    requires i < |nodes| && SitesClean(nodes, i, catalog, round)
    ensures SitesClean(OrderAt(nodes, i, catalog, round), i + 1, catalog, round)
  {
    var out := OrderAt(nodes, i, catalog, round);
    assert SiteClean(nodes, i, catalog, round);
    if out != nodes {
      var d, v, k :| OrderSite(nodes, i, d, v, k, catalog, round);
      forall j | i + 1 <= j < |out| ensures SiteClean(out, j, catalog, round) {
        assert SiteClean(nodes, j, catalog, round);
        SiteStaysClean(nodes, out, i, d, v, k, catalog, round, j);
      }
    } else {
      forall j | i + 1 <= j < |out| ensures SiteClean(out, j, catalog, round) {
        assert SiteClean(nodes, j, catalog, round);
      }
    }
  }

  // ====================
  // The sort pass over the whole arena.

  function OrderFrom(nodes: seq<LogicalOp>, i: nat, catalog: Catalog, round: Rounding): (out: seq<LogicalOp>)
    requires Topological(nodes)
    ensures |out| == |nodes|
    decreases |nodes| - i
  {
    if i >= |nodes| then nodes
    else
      OrderAtInputs(nodes, i, catalog, round);
      OrderFrom(OrderAt(nodes, i, catalog, round), i + 1, catalog, round)
  }

  /** The nodes of the path have no reader in use but the one above. */
  lemma {:induction false} PathOwned(
    root: nat, nodes: seq<LogicalOp>, live: set<nat>, parent: nat, cursor: nat, key: Expr,
    preds: seq<Expr>, d: Descent, c: nat)
    requires PlanOk(root, nodes, live) && Descends(nodes, cursor, key, preds, d)
    requires parent in live && cursor in Inputs(nodes[parent])
    requires c in PathIds(nodes, cursor, d.scan) || c == d.scan
    ensures c in live
    ensures forall k: nat | k in live && k < |nodes| && c in Inputs(nodes[k]) ::
      k == parent || k in PathIds(nodes, cursor, d.scan)
    decreases cursor
  {
    if c == cursor {
      OnlyParent(nodes, live, parent, cursor);
    } else {
      var op := nodes[cursor];
      assert op.input in Inputs(op) && InputsBelow(op, cursor);
      DescentBelow(nodes, cursor, key, preds, d);
      if op.Filter? {
        PathOwned(root, nodes, live, cursor, op.input, key, preds + [op.pred], d, c);
      } else {
        PathOwned(root, nodes, live, cursor, op.input, ResolveAlias(key, op.items), preds, d, c);
      }
    }
  }

  lemma OrderAtPlan(
    root: nat, nodes: seq<LogicalOp>, live: set<nat>, i: nat, d: Descent, v: VarId, key: string,
    catalog: Catalog, round: Rounding)
    requires PlanOk(root, nodes, live) && OrderSite(nodes, i, d, v, key, catalog, round)
    ensures var out := OrderAt(nodes, i, catalog, round);
      PlanOk(root, out, live)
      && Region(nodes, out, i, PathIds(nodes, nodes[i].input, d.scan) + {d.scan}, live)
  {
    var out := OrderAt(nodes, i, catalog, round);
    OrderAtInputs(nodes, i, catalog, round);
    OrderAtShape(nodes, i, d, v, key, catalog, round);
    assert nodes[i].input in Inputs(nodes[i]);
    forall c | c in PathIds(nodes, nodes[i].input, d.scan) + {d.scan}
      ensures c in live
      ensures forall k: nat | k in live && k < |nodes| && c in Inputs(nodes[k]) ::
        k == i || k in PathIds(nodes, nodes[i].input, d.scan)
    {
      PathOwned(root, nodes, live, i, nodes[i].input, nodes[i].keys[0].expr, [], d, c);
    }
    DescentBelow(nodes, nodes[i].input, nodes[i].keys[0].expr, [], d);
    SameInputs(nodes, out, root, live);
  }

  // ----- runs -----

  /** A run leaves nothing open below a served sort: the ordered scan and the
      path above it have the very rows of an execution. */
  lemma {:induction false} PathExact(
    nodes: seq<LogicalOp>, out: seq<LogicalOp>, live: set<nat>, run: Run, cursor: nat, key: Expr, preds: seq<Expr>,
    d: Descent, x: Exec)
    requires Topological(nodes) && Topological(out) && |out| == |nodes| && Descends(nodes, cursor, key, preds, d)
    requires forall k | k in PathIds(nodes, cursor, d.scan) && k < |nodes| :: out[k] == nodes[k]
    requires forall k | k in PathIds(nodes, cursor, d.scan) + {d.scan} :: k in live
    requires d.scan < |out| && ScansInOrder(out[d.scan]) && IsRun(out, live, run, x)
    ensures Ordered(out, cursor)
    ensures forall arg :: run(cursor, arg) == Denote(out, cursor, x, arg)
    decreases cursor
  {
    DescentBelow(nodes, cursor, key, preds, d);
    assert PermitsAll(out, run, cursor, x);
    if cursor == d.scan {
      forall arg ensures run(cursor, arg) == Denote(out, cursor, x, arg) {
        RowWisePermits(out, run, cursor, x, arg);
      }
    } else {
      var op := nodes[cursor];
      assert op.input in Inputs(op) && InputsBelow(op, cursor);
      if op.Filter? { PathExact(nodes, out, live, run, op.input, key, preds + [op.pred], d, x); }
      else { PathExact(nodes, out, live, run, op.input, ResolveAlias(key, op.items), preds, d, x); }
      forall arg ensures run(cursor, arg) == Denote(out, cursor, x, arg) {
        RowWisePermits(out, run, cursor, x, arg);
      }
    }
  }

  predicate ScansInOrder(op: LogicalOp) {
    op.NodeSeek? && op.source.None? && op.access.ByRange? && op.access.order.Some?
  }

  /** The run with the rows the region had before. */
  ghost function Unserved(nodes: seq<LogicalOp>, inside: set<nat>, run: Run, x: Exec): Run
    requires Topological(nodes)
  {
    (id: nat, arg: Row) => if id in inside && id < |nodes| then Denote(nodes, id, x, arg) else run(id, arg)
  }

  /** The path and its scan read nothing outside. */
  lemma {:induction false} PathClosed(
    nodes: seq<LogicalOp>, cursor: nat, key: Expr, preds: seq<Expr>, d: Descent, c: nat)
    requires Topological(nodes) && Descends(nodes, cursor, key, preds, d) && d.scan < |nodes|
    requires (nodes[d.scan].NodeScan? || nodes[d.scan].NodeSeek?) && nodes[d.scan].source.None?
    requires c in PathIds(nodes, cursor, d.scan) + {d.scan}
    ensures c < |nodes| && RowWise(nodes[c])
    ensures match Upstream(nodes[c]) case None => true case Some(u) => u in PathIds(nodes, cursor, d.scan) + {d.scan}
    decreases cursor
  {
    DescentBelow(nodes, cursor, key, preds, d);
    if c != d.scan {
      var op := nodes[cursor];
      assert op.input in Inputs(op) && InputsBelow(op, cursor);
      var preds', key' := if op.Filter? then preds + [op.pred] else preds, if op.Filter? then key else ResolveAlias(key, op.items);
      if c == cursor {
        PathStarts(nodes, op.input, key', preds', d);
      } else {
        PathClosed(nodes, op.input, key', preds', d, c);
      }
    }
  }

  lemma PathStarts(nodes: seq<LogicalOp>, cursor: nat, key: Expr, preds: seq<Expr>, d: Descent)
    requires Topological(nodes) && Descends(nodes, cursor, key, preds, d)
    ensures cursor in PathIds(nodes, cursor, d.scan) + {d.scan}
  {
    DescentBelow(nodes, cursor, key, preds, d);
  }

  lemma UnservedInside(
    nodes: seq<LogicalOp>, cursor: nat, key: Expr, preds: seq<Expr>, d: Descent, run: Run, x: Exec, c: nat)
    requires Topological(nodes) && Descends(nodes, cursor, key, preds, d) && d.scan < |nodes|
    requires (nodes[d.scan].NodeScan? || nodes[d.scan].NodeSeek?) && nodes[d.scan].source.None?
    requires c in PathIds(nodes, cursor, d.scan) + {d.scan} && TotalPreorder(x.le)
    ensures c < |nodes| && PermitsAll(nodes, Unserved(nodes, PathIds(nodes, cursor, d.scan) + {d.scan}, run, x), c, x)
  {
    var before := Unserved(nodes, PathIds(nodes, cursor, d.scan) + {d.scan}, run, x);
    PathClosed(nodes, cursor, key, preds, d, c);
    forall arg ensures Permits(nodes, before, c, x, arg) {
      ExactPermits(nodes, c, x, arg);
      RowWisePermits(nodes, Exactly(nodes, x), c, x, arg);
      RowWisePermits(nodes, before, c, x, arg);
    }
  }

  /** The sort may have made the served rows of the rows of its path. */
  lemma SiteMakes(
    nodes: seq<LogicalOp>, i: nat, d: Descent, v: VarId, key: string, catalog: Catalog, round: Rounding,
    x: Exec, arg: Row)
    requires Topological(nodes) && Topological(OrderAt(nodes, i, catalog, round))
    requires OrderSite(nodes, i, d, v, key, catalog, round) && OrderExec(x)
    ensures SortMakes(nodes[i], Denote(nodes, nodes[i].input, x, arg),
                      Denote(OrderAt(nodes, i, catalog, round), i, x, arg), x)
  {
    var sort := nodes[i];
    OrderAtServes(nodes, i, d, v, key, catalog, round, x, arg);
    assert Denote(nodes, i, x, arg) == SortRows(sort, Denote(nodes, sort.input, x, arg), x);
    ServedMakes(sort, Denote(nodes, sort.input, x, arg), Denote(OrderAt(nodes, i, catalog, round), i, x, arg), x);
  }

  lemma UnservedPermits(nodes: seq<LogicalOp>, i: nat, inside: set<nat>, run: Run, x: Exec, arg: Row)
    requires Topological(nodes) && i < |nodes| && nodes[i].Sort? && nodes[i].input < i
    requires i !in inside && nodes[i].input in inside
    requires SortMakes(nodes[i], Denote(nodes, nodes[i].input, x, arg), run(i, arg), x)
    ensures Permits(nodes, Unserved(nodes, inside, run, x), i, x, arg)
  {
    var before := Unserved(nodes, inside, run, x);
    SortPermits(nodes, before, i, x, arg);
    assert before(i, arg) == run(i, arg);
    assert before(nodes[i].input, arg) == Denote(nodes, nodes[i].input, x, arg);
  }

  lemma ServedMakes(sort: LogicalOp, rows: seq<Row>, out: seq<Row>, x: Exec)
    requires sort.Sort? && sort.presorted == 0 && sort.topK.None? && sort.bound.None?
    requires Perm(SortRows(sort, rows, x), out) && Sorted(sort.keys, out, x.env, x.le)
    ensures SortMakes(sort, rows, out, x)
  {
    SortRowsKeep(sort, rows, x);
    assert SortedPerm(sort.keys, out, rows, x);
  }

  lemma ServedExact(
    nodes: seq<LogicalOp>, live: set<nat>, i: nat, d: Descent, v: VarId, key: string, catalog: Catalog,
    round: Rounding, run: Run, x: Exec)
    requires Topological(nodes) && Topological(OrderAt(nodes, i, catalog, round))
    requires OrderSite(nodes, i, d, v, key, catalog, round) && i in live
    requires forall k | k in PathIds(nodes, nodes[i].input, d.scan) + {d.scan} :: k in live
    requires IsRun(OrderAt(nodes, i, catalog, round), live, run, x)
    ensures Ordered(OrderAt(nodes, i, catalog, round), i)
    ensures forall arg :: run(i, arg) == Denote(OrderAt(nodes, i, catalog, round), i, x, arg)
  {
    var out, sort := OrderAt(nodes, i, catalog, round), nodes[i];
    OrderAtShape(nodes, i, d, v, key, catalog, round);
    NewScanKey(nodes, i, d, v, key, catalog, round);
    DescentBelow(nodes, sort.input, sort.keys[0].expr, [], d);
    PathExact(nodes, out, live, run, sort.input, sort.keys[0].expr, [], d, x);
    assert PermitsAll(out, run, i, x);
    forall arg ensures run(i, arg) == Denote(out, i, x, arg) { ServedRowsExact(out, i, run, x, arg); }
  }

  lemma ServedRowsExact(out: seq<LogicalOp>, i: nat, run: Run, x: Exec, arg: Row)
    requires Topological(out) && i < |out| && Permits(out, run, i, x, arg)
    requires (out[i].Sort? && out[i].presorted > 0) || (out[i].Projection? && !out[i].distinct)
    requires out[i].input < i && Ordered(out, out[i].input)
    requires run(out[i].input, arg) == Denote(out, out[i].input, x, arg)
    ensures run(i, arg) == Denote(out, i, x, arg)
  {
    if out[i].Sort? { SortPermits(out, run, i, x, arg); } else { RowWisePermits(out, run, i, x, arg); }
  }

  /** A run of the plan with the sort served is a run of the plan with the
      sort. */
  lemma OrderAtRun(
    root: nat, nodes: seq<LogicalOp>, live: set<nat>, i: nat, catalog: Catalog, round: Rounding, run: Run, x: Exec)
    returns (before: Run)
    requires PlanOk(root, nodes, live) && OrderExec(x) && SiteClean(nodes, i, catalog, round)
    requires Topological(OrderAt(nodes, i, catalog, round)) && IsRun(OrderAt(nodes, i, catalog, round), live, run, x)
    ensures IsRun(nodes, live, before, x) && forall arg :: before(root, arg) == run(root, arg)
  {
    before := run;
    if OrderAt(nodes, i, catalog, round) != nodes {
      var d, v, key :| OrderSite(nodes, i, d, v, key, catalog, round);
      before := ServedRun(root, nodes, live, i, d, v, key, catalog, round, run, x);
    }
  }

  lemma ServedRun(
    root: nat, nodes: seq<LogicalOp>, live: set<nat>, i: nat, d: Descent, v: VarId, key: string, catalog: Catalog,
    round: Rounding, run: Run, x: Exec)
    returns (before: Run)
    requires PlanOk(root, nodes, live) && OrderExec(x) && OrderSite(nodes, i, d, v, key, catalog, round) && i in live
    requires Topological(OrderAt(nodes, i, catalog, round)) && IsRun(OrderAt(nodes, i, catalog, round), live, run, x)
    ensures IsRun(nodes, live, before, x) && forall arg :: before(root, arg) == run(root, arg)
  {
    var out := OrderAt(nodes, i, catalog, round);
    var inside := PathIds(nodes, nodes[i].input, d.scan) + {d.scan};
    before := Unserved(nodes, inside, run, x);
    OrderAtPlan(root, nodes, live, i, d, v, key, catalog, round);
    OrderAtShape(nodes, i, d, v, key, catalog, round);
    assert nodes[i].input in Inputs(nodes[i]);
    RegionOwned(root, nodes, live, i, nodes[i].input, nodes[i].keys[0].expr, d, run, x);
    ServedTop(nodes, live, i, d, v, key, catalog, round, run, x);
    RegionRun(nodes, out, i, inside, live, live, run, before, x);
  }

  lemma RegionOwned(
    root: nat, nodes: seq<LogicalOp>, live: set<nat>, i: nat, input: nat, lead: Expr, d: Descent, run: Run, x: Exec)
    requires PlanOk(root, nodes, live) && TotalPreorder(x.le) && i in live
    requires i < |nodes| && input < i && input in Inputs(nodes[i]) && Descends(nodes, input, lead, [], d) && d.scan < |nodes|
    requires (nodes[d.scan].NodeScan? || nodes[d.scan].NodeSeek?) && nodes[d.scan].source.None?
    ensures var inside := PathIds(nodes, input, d.scan) + {d.scan};
      forall c | c in inside ::
        c in live && c < |nodes| && c != root && PermitsAll(nodes, Unserved(nodes, inside, run, x), c, x)
  {
    forall c | c in PathIds(nodes, input, d.scan) + {d.scan} {
      InsideOwned(root, nodes, live, i, input, lead, d, run, x, c);
    }
  }

  lemma InsideOwned(
    root: nat, nodes: seq<LogicalOp>, live: set<nat>, i: nat, input: nat, lead: Expr, d: Descent, run: Run, x: Exec, c: nat)
    requires PlanOk(root, nodes, live) && TotalPreorder(x.le) && i in live
    requires i < |nodes| && input < i && input in Inputs(nodes[i]) && Descends(nodes, input, lead, [], d) && d.scan < |nodes|
    requires (nodes[d.scan].NodeScan? || nodes[d.scan].NodeSeek?) && nodes[d.scan].source.None?
    requires c in PathIds(nodes, input, d.scan) + {d.scan}
    ensures c in live && c < |nodes| && c != root
    ensures PermitsAll(nodes, Unserved(nodes, PathIds(nodes, input, d.scan) + {d.scan}, run, x), c, x)
  {
    PathOwned(root, nodes, live, i, input, lead, [], d, c);
    UnservedInside(nodes, input, lead, [], d, run, x, c);
    RootOutside(root, nodes, live, i, input, lead, [], d, c);
  }

  lemma ServedTop(
    nodes: seq<LogicalOp>, live: set<nat>, i: nat, d: Descent, v: VarId, key: string, catalog: Catalog,
    round: Rounding, run: Run, x: Exec)
    requires Topological(nodes) && Topological(OrderAt(nodes, i, catalog, round)) && OrderExec(x)
    requires OrderSite(nodes, i, d, v, key, catalog, round) && i in live
    requires forall k | k in PathIds(nodes, nodes[i].input, d.scan) + {d.scan} :: k in live
    requires IsRun(OrderAt(nodes, i, catalog, round), live, run, x)
    ensures Ordered(nodes, i) && Ordered(OrderAt(nodes, i, catalog, round), i)
    ensures var inside := PathIds(nodes, nodes[i].input, d.scan) + {d.scan};
      PermitsAll(nodes, Unserved(nodes, inside, run, x), i, x)
  {
    var inside := PathIds(nodes, nodes[i].input, d.scan) + {d.scan};
    ServedExact(nodes, live, i, d, v, key, catalog, round, run, x);
    OutsidePath(nodes, i, nodes[i].keys[0].expr, [], d);
    ServedTopAll(nodes, i, d, v, key, catalog, round, inside, run, x);
  }

  lemma ServedTopAll(
    nodes: seq<LogicalOp>, i: nat, d: Descent, v: VarId, key: string, catalog: Catalog, round: Rounding,
    inside: set<nat>, run: Run, x: Exec)
    requires Topological(nodes) && Topological(OrderAt(nodes, i, catalog, round)) && OrderExec(x)
    requires OrderSite(nodes, i, d, v, key, catalog, round) && i !in inside && nodes[i].input in inside
    requires forall arg :: run(i, arg) == Denote(OrderAt(nodes, i, catalog, round), i, x, arg)
    ensures PermitsAll(nodes, Unserved(nodes, inside, run, x), i, x)
  {
    forall arg ensures Permits(nodes, Unserved(nodes, inside, run, x), i, x, arg) {
      ServedTopAt(nodes, i, d, v, key, catalog, round, inside, run, x, arg);
    }
  }

  lemma OutsidePath(nodes: seq<LogicalOp>, i: nat, key: Expr, preds: seq<Expr>, d: Descent)
    requires Topological(nodes) && i < |nodes| && nodes[i].Sort? && nodes[i].input < i
    requires Descends(nodes, nodes[i].input, key, preds, d)
    ensures var inside := PathIds(nodes, nodes[i].input, d.scan) + {d.scan}; i !in inside && nodes[i].input in inside
  {
    DescentBelow(nodes, nodes[i].input, key, preds, d);
    PathStarts(nodes, nodes[i].input, key, preds, d);
  }

  lemma ServedTopAt(
    nodes: seq<LogicalOp>, i: nat, d: Descent, v: VarId, key: string, catalog: Catalog, round: Rounding,
    inside: set<nat>, run: Run, x: Exec, arg: Row)
    requires Topological(nodes) && Topological(OrderAt(nodes, i, catalog, round)) && OrderExec(x)
    requires OrderSite(nodes, i, d, v, key, catalog, round) && i !in inside && nodes[i].input in inside
    requires run(i, arg) == Denote(OrderAt(nodes, i, catalog, round), i, x, arg)
    ensures Permits(nodes, Unserved(nodes, inside, run, x), i, x, arg)
  {
    SiteMakes(nodes, i, d, v, key, catalog, round, x, arg);
    UnservedPermits(nodes, i, inside, run, x, arg);
  }

  lemma {:induction false} RootOutside(
    root: nat, nodes: seq<LogicalOp>, live: set<nat>, parent: nat, cursor: nat, key: Expr, preds: seq<Expr>,
    d: Descent, c: nat)
    requires PlanOk(root, nodes, live) && Descends(nodes, cursor, key, preds, d)
    requires parent in live && cursor in Inputs(nodes[parent]) && cursor in live
    requires c in PathIds(nodes, cursor, d.scan) || c == d.scan
    ensures c != root
    decreases cursor
  {
    if c != cursor {
      var op := nodes[cursor];
      DescentBelow(nodes, cursor, key, preds, d);
      assert op.input in Inputs(op) && InputsBelow(op, cursor);
      if op.Filter? {
        RootOutside(root, nodes, live, cursor, op.input, key, preds + [op.pred], d, c);
      } else {
        RootOutside(root, nodes, live, cursor, op.input, ResolveAlias(key, op.items), preds, d, c);
      }
    }
  }

  // ----- the whole pass -----

  lemma OrderAtKeepsPlan(
    root: nat, nodes: seq<LogicalOp>, live: set<nat>, i: nat, catalog: Catalog, round: Rounding)
    requires PlanOk(root, nodes, live) && SitesClean(nodes, i, catalog, round) && i < |nodes|
    ensures PlanOk(root, OrderAt(nodes, i, catalog, round), live)
    ensures SitesClean(OrderAt(nodes, i, catalog, round), i + 1, catalog, round)
  {
    OrderAtInputs(nodes, i, catalog, round);
    assert SiteClean(nodes, i, catalog, round);
    if OrderAt(nodes, i, catalog, round) != nodes {
      var d, v, key :| OrderSite(nodes, i, d, v, key, catalog, round);
      OrderAtPlan(root, nodes, live, i, d, v, key, catalog, round);
    }
    SitesStayClean(nodes, i, catalog, round);
  }

  /** From clean sites on, the whole pass keeps the plan a forest in
      topological order. */
  lemma {:induction false} OrderKeepsPlan(
    root: nat, nodes: seq<LogicalOp>, live: set<nat>, i: nat, catalog: Catalog, round: Rounding)
    requires PlanOk(root, nodes, live) && SitesClean(nodes, i, catalog, round)
    ensures PlanOk(root, OrderFrom(nodes, i, catalog, round), live)
    decreases |nodes| - i
  {
    if i < |nodes| {
      var out := OrderAt(nodes, i, catalog, round);
      OrderAtKeepsPlan(root, nodes, live, i, catalog, round);
      OrderKeepsPlan(root, out, live, i + 1, catalog, round);
    }
  }

  /** And every run after it is a run before it, with the rows of the root:
      where a sort was served, its rows are in an order the sort allows. */
  lemma {:induction false} OrderRuns(
    root: nat, nodes: seq<LogicalOp>, live: set<nat>, i: nat, catalog: Catalog, round: Rounding, run: Run, x: Exec)
    returns (before: Run)
    requires PlanOk(root, nodes, live) && OrderExec(x) && SitesClean(nodes, i, catalog, round)
    requires Topological(OrderFrom(nodes, i, catalog, round)) && IsRun(OrderFrom(nodes, i, catalog, round), live, run, x)
    ensures IsRun(nodes, live, before, x) && forall arg :: before(root, arg) == run(root, arg)
    decreases |nodes| - i
  {
    before := run;
    if i < |nodes| {
      var out := OrderAt(nodes, i, catalog, round);
      OrderAtKeepsPlan(root, nodes, live, i, catalog, round);
      var middle := OrderRuns(root, out, live, i + 1, catalog, round, run, x);
      assert SiteClean(nodes, i, catalog, round);
      before := OrderAtRun(root, nodes, live, i, catalog, round, middle, x);
    }
  }
}
