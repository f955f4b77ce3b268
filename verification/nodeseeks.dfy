/** Replacing the scan under a filter by an id seek or an indexed scan. */
module NodeSeeks {
  import opened Values
  import opened Expressions
  import opened Conjuncts
  import opened Sorting
  import opened Logical
  import opened Arena
  import opened Planning
  import opened Walks
  import opened Runs
  import opened RangeBounds
  import opened Accesses
  import opened FilterPush

  /** What the pass is told: the catalog, how literals round, which boxes
      hold every point, and the candidate the cost model picks at a site. */
  datatype Advice = Advice(
    catalog: Catalog, round: Rounding, whole: PointTest -> bool, pick: nat -> Option<nat>)

  function Picked(candidates: seq<Access>, pick: Option<nat>): Option<Access> {
    if pick.Some? && pick.value < |candidates| then Some(candidates[pick.value]) else None
  }

  /** An id seek is always taken; an index where the cost model says so. */
  function NodeAccess(scan: LogicalOp, pred: Expr, site: nat, advice: Advice): Option<Access>
    requires scan.NodeScan?
  {
    var seek := IdSeek(pred, scan.v, NODE_ID_FUNCTIONS);
    if seek.Some? then seek
    else Picked(
      NodeCandidates(scan.labels, pred, scan.v, advice.catalog, advice.round, advice.whole),
      advice.pick(site))
  }

  function SeekAt(nodes: seq<LogicalOp>, i: nat, advice: Advice): (out: seq<LogicalOp>)
    ensures |out| == |nodes|
  {
    if i < |nodes| && nodes[i].Filter? && nodes[i].input < |nodes| && nodes[nodes[i].input].NodeScan?
    then
      var scan := nodes[nodes[i].input];
      match NodeAccess(scan, nodes[i].pred, i, advice)
      case Some(a) => nodes[nodes[i].input := SeekFor(scan, a)]
      case None => nodes
    else nodes
  }

  function SeekFrom(nodes: seq<LogicalOp>, i: nat, advice: Advice): (out: seq<LogicalOp>)
    ensures |out| == |nodes|
    decreases |nodes| - i
  {
    if i >= |nodes| then nodes else SeekFrom(SeekAt(nodes, i, advice), i + 1, advice)
  }

  // ----- assumptions -----

  /** The builtins the pass relies on: ids, and the end of a prefix. */
  ghost predicate Builtins(env: Env) {
    && PrefixEndCalls(env)
    && (forall f, id: nat | f in NODE_ID_FUNCTIONS :: env.call(f, [NodeRef(id)]) == Int(id))
    && (forall f, id: nat | f in REL_ID_FUNCTIONS :: env.call(f, [RelRef(id)]) == Int(id))
  }

  ghost predicate OwnElements(pred: Expr, v: VarId) {
    forall c | c in ConjunctsOf(pred) :: OwnElement(c, v)
  }

  /** No node the scan may meet stores a list where the predicate's first
      text test is a CONTAINS. */
  ghost predicate NoTextOnLists(labels: Labels, pred: Expr, v: VarId, g: Graph) {
    FirstText(pred, v).Some? ==>
      forall id: nat | NodeOk(g, id, labels) :: NotListed(FirstText(pred, v).value, g.nodes[id].value.props)
  }

  ghost predicate NodeSitesFit(nodes: seq<LogicalOp>, g: Graph) {
    forall i | 0 <= i < |nodes| && nodes[i].Filter? && nodes[i].input < |nodes|
               && nodes[nodes[i].input].NodeScan? ::
      var scan := nodes[nodes[i].input];
      OwnElements(nodes[i].pred, scan.v) && NoTextOnLists(scan.labels, nodes[i].pred, scan.v, g)
  }

  // ----- one site -----

  lemma {:induction false} StepAllKeep(op: LogicalOp, pred: Expr, rows: seq<Row>, x: Exec)
    requires RowWise(op)
    ensures Keep([pred], StepAll(op, rows, x), x.env)
         == FlatMap((row: Row) => Keep([pred], Step(op, row, x), x.env), rows)
  {
    if rows != [] {
      StepAllKeep(op, pred, rows[1..], x);
      KeepConcat([pred], Step(op, rows[0], x), StepAll(op, rows[1..], x), x.env);
    }
  }

  /** The row a node contributes under the filter. */
  function NodeRow(labels: Labels, v: VarId, pred: Expr, row: Row, id: nat, env: Env): seq<Row> {
    var bound := row[v := NodeRef(id)];
    if NodeOk(env.graph, id, labels) && Eval(pred, bound, env).Truthy() then [bound] else []
  }

  /** The filter keeps no node the seek misses. */
  ghost predicate Complete(op: LogicalOp, pred: Expr, row: Row, env: Env)
    requires op.NodeScan? || op.NodeSeek?
  {
    forall id: nat | NodeOk(env.graph, id, op.labels) && Eval(pred, row[op.v := NodeRef(id)], env).Truthy() ::
      NodeFound(op, id, row, env)
  }

  lemma {:induction false} ScanRowsKept(op: LogicalOp, pred: Expr, ids: seq<nat>, row: Row, env: Env)
    requires op.NodeScan? || op.NodeSeek?
    requires Complete(op, pred, row, env)
    ensures Keep([pred], ScanRows(op, ids, row, env), env)
         == FlatMap((id: nat) => NodeRow(op.labels, op.v, pred, row, id, env), ids)
  {
    if ids != [] {
      var rest, bound := ScanRows(op, ids[1..], row, env), row[op.v := NodeRef(ids[0])];
      ScanRowsKept(op, pred, ids[1..], row, env);
      assert AllTrue([pred], bound, env) <==> Eval(pred, bound, env).Truthy();
      assert ([bound] + rest)[1..] == rest;
    }
  }

  lemma AccessComplete(
    scan: LogicalOp, a: Access, pred: Expr, site: nat, advice: Advice, row: Row, id: nat, env: Env)
    requires scan.NodeScan? && NodeAccess(scan, pred, site, advice) == Some(a)
    requires Builtins(env) && OwnElements(pred, scan.v)
    requires NoTextOnLists(scan.labels, pred, scan.v, env.graph)
    requires NodeOk(env.graph, id, scan.labels)
    requires scan.v in row && row[scan.v] == NodeRef(id) && Eval(pred, row, env).Truthy()
    ensures Found(a, scan.v, row, id, env.graph.nodes[id].value.props, env)
  {
    var v, props := scan.v, env.graph.nodes[id].value.props;
    assert Binds(row, v, id, props, NODE_ID_FUNCTIONS, env);
    if IdSeek(pred, v, NODE_ID_FUNCTIONS).Some? {
      IdSeekSound(pred, v, row, id, props, NODE_ID_FUNCTIONS, env);
    } else {
      if a.ByText? { TextCandidate(scan.labels, pred, v, advice, a); }
      NodeCandidateSound(scan.labels, pred, v, advice.catalog, advice.round, advice.whole, a,
                         row, id, props, NODE_ID_FUNCTIONS, env);
    }
  }

  lemma {:induction false} SeeksAreProperty(ks: seq<Keyed>, seek: PropertySeek)
    ensures forall a | a in Seeks(ks, seek) :: a.ByProperty?
  {
    if ks != [] { SeeksAreProperty(ks[1..], seek); }
  }

  lemma {:induction false} RangeSeeksAreRange(bs: seq<Bounds>, indexed: string -> bool)
    ensures forall a | a in RangeSeeks(bs, indexed) :: a.ByRange? && a.nulls.None?
  {
    if bs != [] { RangeSeeksAreRange(bs[1..], indexed); }
  }

  lemma SeekKinds(pred: Expr, v: VarId, indexed: string -> bool)
    ensures forall a | a in EqualitySeeks(pred, v) :: a.ByProperty?
    ensures forall a | a in InSeeks(pred, v) :: a.ByProperty?
    ensures forall a | a in ElementSeeks(pred, v, indexed) :: a.ByProperty?
  {
    var cs := ConjunctsOf(pred);
    SeeksAreProperty(FirstPerKey(Gather(cs, v, EqualityOf), {}, _ => true), SeekEqual);
    SeeksAreProperty(
      FirstPerKey(Gather(cs, v, InListOf), KeysOf(Gather(cs, v, EqualityOf)), _ => true), SeekIn);
    SeeksAreProperty(FirstPerKey(Gather(cs, v, ElementTestOf), {}, indexed), SeekElement);
    SeeksAreProperty(Indexed(Gather(cs, v, AnyElementTestOf), indexed), SeekAnyElement);
  }

  /** The only text candidate is the first text test. */
  lemma TextCandidate(labels: Labels, pred: Expr, v: VarId, advice: Advice, a: Access)
    requires a in NodeCandidates(labels, pred, v, advice.catalog, advice.round, advice.whole) && a.ByText?
    ensures FirstText(pred, v) == Some(a)
  {
    SeekKinds(pred, v, IndexedOn(advice.catalog, RangeIndex, SoleLabel(labels)));
    RangeSeeksAreRange(Ranges(pred, v, advice.round),
                       IndexedOn(advice.catalog, RangeIndex, FirstLabel(labels)));
  }

  /** The site is one the seek `a` may replace the scan of. */
  ghost predicate Site(
    scan: LogicalOp, a: Access, pred: Expr, site: nat, advice: Advice, x: Exec)
  {
    && scan.NodeScan? && NodeAccess(scan, pred, site, advice) == Some(a)
    && ExecValid(x) && Builtins(x.env) && OwnElements(pred, scan.v)
    && NoTextOnLists(scan.labels, pred, scan.v, x.env.graph)
  }

  function SeekFor(scan: LogicalOp, a: Access): LogicalOp
    requires scan.NodeScan?
  {
    NodeSeek(scan.source, scan.v, scan.labels, a)
  }

  lemma BoundStep(
    scan: LogicalOp, a: Access, pred: Expr, site: nat, advice: Advice, row: Row, x: Exec)
    requires Site(scan, a, pred, site, advice, x) && scan.v in row
    ensures Keep([pred], Step(scan, row, x), x.env) == Keep([pred], Step(SeekFor(scan, a), row, x), x.env)
  {
    var v, env := scan.v, x.env;
    assert AllTrue([pred], row, env) <==> Eval(pred, row, env).Truthy();
    if row[v].NodeRef? && NodeOk(env.graph, row[v].node, scan.labels) && Eval(pred, row, env).Truthy() {
      AccessComplete(scan, a, pred, site, advice, row, row[v].node, env);
    } else {
      assert Keep([pred], [], env) == [];
      assert Keep([pred], Step(scan, row, x), env) == [];
    }
  }

  lemma SeekComplete(
    scan: LogicalOp, a: Access, pred: Expr, site: nat, advice: Advice, row: Row, x: Exec)
    requires Site(scan, a, pred, site, advice, x)
    ensures Complete(scan, pred, row, x.env) && Complete(SeekFor(scan, a), pred, row, x.env)
  {
    var v, env := scan.v, x.env;
    forall id: nat | NodeOk(env.graph, id, scan.labels) && Eval(pred, row[v := NodeRef(id)], env).Truthy()
      ensures NodeFound(SeekFor(scan, a), id, row, env)
    {
      AccessComplete(scan, a, pred, site, advice, row[v := NodeRef(id)], id, env);
      AccessStable(a, id, env.graph.nodes[id].value.props, v, NodeRef(id), row, env);
    }
  }

  lemma SeekStep(
    scan: LogicalOp, a: Access, pred: Expr, site: nat, advice: Advice, row: Row, x: Exec)
    requires Site(scan, a, pred, site, advice, x)
    ensures Perm(Keep([pred], Step(scan, row, x), x.env),
                 Keep([pred], Step(SeekFor(scan, a), row, x), x.env))
  {
    if scan.v in row {
      BoundStep(scan, a, pred, site, advice, row, x);
    } else {
      SeekComplete(scan, a, pred, site, advice, row, x);
      UnboundStep(scan, SeekFor(scan, a), pred, row, x);
    }
  }

  lemma UnboundStep(scan: LogicalOp, seek: LogicalOp, pred: Expr, row: Row, x: Exec)
    requires scan.NodeScan? && seek.NodeSeek? && seek.v == scan.v && seek.labels == scan.labels
    requires ExecValid(x) && scan.v !in row
    requires Complete(scan, pred, row, x.env) && Complete(seek, pred, row, x.env)
    ensures Perm(Keep([pred], Step(scan, row, x), x.env), Keep([pred], Step(seek, row, x), x.env))
  {
    var here, there := x.nodeOrder(Detached(scan)), x.nodeOrder(Detached(seek));
    ScanRowsKept(scan, pred, here, row, x.env);
    ScanRowsKept(seek, pred, there, row, x.env);
    forall id: nat ensures id in here <==> id in there {
      assert id in here <==> x.env.graph.HasNode(id);
      assert id in there <==> x.env.graph.HasNode(id);
    }
    NoDupPerm(here, there);
    FlatMapPerm((id: nat) => NodeRow(scan.labels, scan.v, pred, row, id, x.env), here, there);
  }

  lemma SeekRows(
    scan: LogicalOp, a: Access, pred: Expr, i: nat, j: nat, advice: Advice, rows: seq<Row>, x: Exec)
    requires Site(scan, a, pred, i, advice, x)
    ensures Perm(StepAll(Filter(j, pred), StepAll(scan, rows, x), x),
                 StepAll(Filter(j, pred), StepAll(SeekFor(scan, a), rows, x), x))
  {
    var seek := SeekFor(scan, a);
    FilterKeeps(j, pred, StepAll(scan, rows, x), x);
    FilterKeeps(j, pred, StepAll(seek, rows, x), x);
    StepAllKeep(scan, pred, rows, x);
    StepAllKeep(seek, pred, rows, x);
    var f := (row: Row) => Keep([pred], Step(scan, row, x), x.env);
    var f' := (row: Row) => Keep([pred], Step(seek, row, x), x.env);
    forall row ensures Perm(f(row), f'(row)) { SeekStep(scan, a, pred, i, advice, row, x); }
    FlatMapPermEach(f, f', rows);
  }

  // ----- the pass -----

  lemma SeekAtPlan(root: nat, nodes: seq<LogicalOp>, live: set<nat>, i: nat, advice: Advice)
    requires PlanOk(root, nodes, live) && SeekAt(nodes, i, advice) != nodes
    ensures i < |nodes| && nodes[i].Filter? && nodes[i].input < i && nodes[nodes[i].input].NodeScan?
    ensures PlanOk(root, SeekAt(nodes, i, advice), live)
    ensures Region(nodes, SeekAt(nodes, i, advice), i, {nodes[i].input}, live)
  {
    var out, j := SeekAt(nodes, i, advice), nodes[i].input;
    assert InputsBelow(nodes[i], i) && j in Inputs(nodes[i]);
    SameInputs(nodes, out, root, live);
    OnlyParent(nodes, live, i, j);
  }

  /** No candidate is told an order: that is left to the sort pass. */
  lemma CandidateUnordered(labels: Labels, pred: Expr, v: VarId, advice: Advice, a: Access)
    requires a in NodeCandidates(labels, pred, v, advice.catalog, advice.round, advice.whole) && a.ByRange?
    ensures a.order.None?
  {
    SeekKinds(pred, v, IndexedOn(advice.catalog, RangeIndex, SoleLabel(labels)));
    RangeSeeksFrom(Ranges(pred, v, advice.round), IndexedOn(advice.catalog, RangeIndex, FirstLabel(labels)), a);
  }

  lemma AccessUnordered(scan: LogicalOp, pred: Expr, site: nat, advice: Advice)
    requires scan.NodeScan? && NodeAccess(scan, pred, site, advice).Some?
    ensures var a := NodeAccess(scan, pred, site, advice).value; a.ByRange? ==> a.order.None?
  {
    var a := NodeAccess(scan, pred, site, advice).value;
    if a.ByRange? { CandidateUnordered(scan.labels, pred, scan.v, advice, a); }
  }

  /** Neither the scan nor the seek fixes an order. */
  lemma SeekUnordered(nodes: seq<LogicalOp>, i: nat, advice: Advice)
    requires Topological(nodes) && Topological(SeekAt(nodes, i, advice)) && SeekAt(nodes, i, advice) != nodes
    requires i < |nodes| && nodes[i].Filter? && nodes[i].input < i
    ensures var out, j := SeekAt(nodes, i, advice), nodes[i].input;
      !Ordered(nodes, i) && !Ordered(nodes, j) && !Ordered(out, i) && !Ordered(out, j)
  {
    AccessUnordered(nodes[nodes[i].input], nodes[i].pred, i, advice);
  }

  /** Whatever rows come in, the filter may make the same of the scan's rows
      and of the seek's. */
  lemma SeekPermits(
    nodes: seq<LogicalOp>, i: nat, a: Access, advice: Advice, run: Run, x: Exec, arg: Row)
    requires Topological(nodes) && Topological(SeekAt(nodes, i, advice)) && SeekAt(nodes, i, advice) != nodes
    requires i < |nodes| && nodes[i].Filter? && nodes[i].input < i
    requires Site(nodes[nodes[i].input], a, nodes[i].pred, i, advice, x)
    requires Permits(SeekAt(nodes, i, advice), run, i, x, arg)
    requires Permits(SeekAt(nodes, i, advice), run, nodes[i].input, x, arg)
    ensures var j := nodes[i].input;
      Permits(nodes, WithRows(run, j, Stepped(nodes[j], run, x)), i, x, arg)
  {
    var out, j, pred := SeekAt(nodes, i, advice), nodes[i].input, nodes[i].pred;
    var scan, rows := nodes[j], Fed(run, Upstream(nodes[j]), arg);
    SeekUnordered(nodes, i, advice);
    RowWisePermits(out, run, i, x, arg);
    RowWisePermits(out, run, j, x, arg);
    RowWisePermits(nodes, WithRows(run, j, Stepped(scan, run, x)), i, x, arg);
    SeekMakes(scan, a, pred, i, j, advice, rows, run(j, arg), run(i, arg), x);
  }

  lemma SeekMakes(
    scan: LogicalOp, a: Access, pred: Expr, i: nat, j: nat, advice: Advice, rows: seq<Row>, found: seq<Row>,
    out: seq<Row>, x: Exec)
    requires Site(scan, a, pred, i, advice, x)
    requires Perm(found, StepAll(SeekFor(scan, a), rows, x)) && Perm(out, StepAll(Filter(j, pred), found, x))
    ensures Perm(out, StepAll(Filter(j, pred), StepAll(scan, rows, x), x))
  {
    StepAllPerm(Filter(j, pred), found, StepAll(SeekFor(scan, a), rows, x), x);
    SeekRows(scan, a, pred, i, j, advice, rows, x);
  }

  /** A run of the plan with the seek is a run of the plan with the scan. */
  lemma SeekAtRun(
    root: nat, nodes: seq<LogicalOp>, live: set<nat>, i: nat, advice: Advice, run: Run, x: Exec)
    returns (before: Run)
    requires PlanOk(root, nodes, live) && ExecValid(x) && Builtins(x.env) && NodeSitesFit(nodes, x.env.graph)
    requires Topological(SeekAt(nodes, i, advice)) && IsRun(SeekAt(nodes, i, advice), live, run, x)
    ensures IsRun(nodes, live, before, x) && forall arg :: before(root, arg) == run(root, arg)
  {
    var out := SeekAt(nodes, i, advice);
    before := run;
    if out != nodes {
      var j := nodes[i].input;
      SeekAtPlan(root, nodes, live, i, advice);
      SeekUnordered(nodes, i, advice);
      before := WithRows(run, j, Stepped(nodes[j], run, x));
      SteppedPermits(nodes, run, j, x);
      SeekAtPermits(nodes, live, i, advice, run, x);
      assert j in Inputs(nodes[i]);
      RegionRun(nodes, out, i, {j}, live, live, run, before, x);
    }
  }

  lemma SeekAtPermits(nodes: seq<LogicalOp>, live: set<nat>, i: nat, advice: Advice, run: Run, x: Exec)
    requires Topological(nodes) && Topological(SeekAt(nodes, i, advice)) && SeekAt(nodes, i, advice) != nodes
    requires i < |nodes| && nodes[i].Filter? && nodes[i].input < i && i in live && nodes[i].input in live
    requires ExecValid(x) && Builtins(x.env) && NodeSitesFit(nodes, x.env.graph)
    requires IsRun(SeekAt(nodes, i, advice), live, run, x)
    ensures var j := nodes[i].input;
      PermitsAll(nodes, WithRows(run, j, Stepped(nodes[j], run, x)), i, x)
  {
    var out, j := SeekAt(nodes, i, advice), nodes[i].input;
    var a := NodeAccess(nodes[j], nodes[i].pred, i, advice).value;
    assert Site(nodes[j], a, nodes[i].pred, i, advice, x);
    assert PermitsAll(out, run, i, x) && PermitsAll(out, run, j, x);
    forall arg ensures Permits(nodes, WithRows(run, j, Stepped(nodes[j], run, x)), i, x, arg) {
      SeekPermits(nodes, i, a, advice, run, x, arg);
    }
  }

  lemma SeekAtFits(root: nat, nodes: seq<LogicalOp>, live: set<nat>, i: nat, advice: Advice, g: Graph)
    requires PlanOk(root, nodes, live) && NodeSitesFit(nodes, g)
    ensures PlanOk(root, SeekAt(nodes, i, advice), live) && NodeSitesFit(SeekAt(nodes, i, advice), g)
  {
    if SeekAt(nodes, i, advice) != nodes { SeekAtPlan(root, nodes, live, i, advice); }
  }

  /** The whole pass keeps the plan a forest in topological order. */
  lemma {:induction false} SeekKeepsPlan(
    root: nat, nodes: seq<LogicalOp>, live: set<nat>, i: nat, advice: Advice, g: Graph)
    requires PlanOk(root, nodes, live) && NodeSitesFit(nodes, g)
    ensures PlanOk(root, SeekFrom(nodes, i, advice), live)
    decreases |nodes| - i
  {
    if i >= |nodes| { return; }
    SeekAtFits(root, nodes, live, i, advice, g);
    SeekKeepsPlan(root, SeekAt(nodes, i, advice), live, i + 1, advice, g);
  }

  /** And every run after it is a run before it, with the rows of the root. */
  lemma {:induction false} SeekRuns(
    root: nat, nodes: seq<LogicalOp>, live: set<nat>, i: nat, advice: Advice, run: Run, x: Exec)
    returns (before: Run)
    requires PlanOk(root, nodes, live) && ExecValid(x) && Builtins(x.env) && NodeSitesFit(nodes, x.env.graph)
    requires Topological(SeekFrom(nodes, i, advice)) && IsRun(SeekFrom(nodes, i, advice), live, run, x)
    ensures IsRun(nodes, live, before, x) && forall arg :: before(root, arg) == run(root, arg)
    decreases |nodes| - i
  {
    if i >= |nodes| { return run; }
    assert SeekFrom(nodes, i, advice) == SeekFrom(SeekAt(nodes, i, advice), i + 1, advice);
    SeekAtFits(root, nodes, live, i, advice, x.env.graph);
    var middle := SeekRuns(root, SeekAt(nodes, i, advice), live, i + 1, advice, run, x);
    before := SeekAtRun(root, nodes, live, i, advice, middle, x);
  }

  // ----- one execution -----

  /** The rewritten site has the rows it had, each as often. */
  lemma SeekDenotes(nodes: seq<LogicalOp>, i: nat, advice: Advice, x: Exec)
    requires Topological(nodes) && Topological(SeekAt(nodes, i, advice)) && SeekAt(nodes, i, advice) != nodes
    requires i < |nodes| && nodes[i].Filter? && nodes[i].input < i
    requires ExecValid(x) && Builtins(x.env) && NodeSitesFit(nodes, x.env.graph)
    ensures PermRows(nodes, SeekAt(nodes, i, advice), i, x)
  {
    var out, j, pred := SeekAt(nodes, i, advice), nodes[i].input, nodes[i].pred;
    var scan := nodes[j];
    assert InputsBelow(scan, j);
    forall arg ensures Perm(Denote(nodes, i, x, arg), Denote(out, i, x, arg)) {
      if scan.source.Some? {
        assert scan.source.value in Inputs(scan);
        DenoteAgrees(nodes, out, scan.source.value, x, arg);
      }
      var rows := InputRows(nodes, scan.source, x, arg);
      RowWiseRows(nodes, j, x, arg);
      RowWiseRows(out, j, x, arg);
      RowWiseRows(nodes, i, x, arg);
      RowWiseRows(out, i, x, arg);
      SeekRows(scan, NodeAccess(scan, pred, i, advice).value, pred, i, j, advice, rows, x);
    }
  }
}
