/** Pushing a filter below a projection swaps two arena nodes in place. */
module FilterPush {
  import opened Values
  import opened Expressions
  import opened Logical
  import opened Arena
  import opened Runs

  predicate CanPush(filter: LogicalOp, input: LogicalOp) {
    filter.Filter? && input.Projection? && !input.distinct && !input.includeExisting
    && Vars(filter.pred) !! Outputs(input.items)
  }

  /** Filter over projection becomes projection over filter; the two nodes
      exchange places, so the ids of their readers stay right. */
  function PushAt(nodes: seq<LogicalOp>, i: nat): (out: seq<LogicalOp>)
    ensures |out| == |nodes|
  {
    if i < |nodes| && nodes[i].Filter? && nodes[i].input < |nodes|
       && nodes[i].input != i && CanPush(nodes[i], nodes[nodes[i].input])
    then
      var j := nodes[i].input;
      nodes[j := Filter(nodes[j].input, nodes[i].pred)]
           [i := Projection(j, false, nodes[j].items, false)]
    else nodes
  }

  function PushFrom(nodes: seq<LogicalOp>, i: nat): (out: seq<LogicalOp>)
    ensures |out| == |nodes|
    decreases |nodes| - i
  {
    if i >= |nodes| then nodes else PushFrom(PushAt(nodes, i), i + 1)
  }

  // ----- scoping -----

  /** The variables of the rows at `id`, when a projection below settles them. */
  ghost function Produces(nodes: seq<LogicalOp>, id: nat): Option<set<VarId>>
    requires Topological(nodes) && id < |nodes|
  {
    var op := nodes[id];
    if op.Projection? && !op.includeExisting then Some(Outputs(op.items))
    else if op.Filter? then
      assert op.input in Inputs(op);
      Produces(nodes, op.input)
    else None
  }

  /** A filter reads only variables its input has. */
  ghost predicate WellScoped(nodes: seq<LogicalOp>)
    requires Topological(nodes)
  {
    forall i | 0 <= i < |nodes| && nodes[i].Filter? ::
      nodes[i].input < |nodes| &&
      (Produces(nodes, nodes[i].input).Some? ==>
         Free(nodes[i].pred) <= Produces(nodes, nodes[i].input).value)
  }

  // ----- the swap on rows -----

  /** A predicate that names no output is evaluated on no bindings above the
      projection. */
  lemma AboveProjection(pred: Expr, items: seq<Item>, row: Row, env: Env)
    requires Vars(pred) !! Outputs(items)
    ensures Eval(pred, ProjectRow(items, false, row, env), env) == Eval(pred, map[], env)
  {
    ProjectOntoKeys(items, row, map[], env);
    FreeWithinVars(pred);
    Coincidence(pred, ProjectRow(items, false, row, env), map[], env);
  }

  predicate SameTruth(pred: Expr, row: Row, env: Env) {
    Eval(pred, row, env).Truthy() == Eval(pred, map[], env).Truthy()
  }

  lemma {:induction false} SwapRows(
    j: nat, k: nat, pred: Expr, items: seq<Item>, rows: seq<Row>, x: Exec)
    requires Vars(pred) !! Outputs(items)
    requires forall row | row in rows :: SameTruth(pred, row, x.env)
    ensures StepAll(Filter(j, pred), StepAll(Projection(k, false, items, false), rows, x), x)
         == StepAll(Projection(j, false, items, false), StepAll(Filter(k, pred), rows, x), x)
  {
    if rows != [] {
      SwapRows(j, k, pred, items, rows[1..], x);
      SwapRow(j, k, pred, items, rows[0], x);
      StepAllConcat(Filter(j, pred), Step(Projection(k, false, items, false), rows[0], x),
                    StepAll(Projection(k, false, items, false), rows[1..], x), x);
      StepAllConcat(Projection(j, false, items, false), Step(Filter(k, pred), rows[0], x),
                    StepAll(Filter(k, pred), rows[1..], x), x);
    }
  }

  lemma SwapRow(j: nat, k: nat, pred: Expr, items: seq<Item>, row: Row, x: Exec)
    requires Vars(pred) !! Outputs(items) && SameTruth(pred, row, x.env)
    ensures StepAll(Filter(j, pred), Step(Projection(k, false, items, false), row, x), x)
         == StepAll(Projection(j, false, items, false), Step(Filter(k, pred), row, x), x)
  {
    AboveProjection(pred, items, row, x.env);
    SingleStep(Filter(j, pred), ProjectRow(items, false, row, x.env), x);
    SingleStep(Projection(j, false, items, false), row, x);
  }

  lemma SingleStep(op: LogicalOp, row: Row, x: Exec)
    requires RowWise(op) || op.Projection?
    ensures StepAll(op, [row], x) == Step(op, row, x)
    ensures StepAll(op, [], x) == []
  {
    assert StepAll(op, [row][1..], x) == [];
  }

  /** The guard alone does not make the swap right: it keeps the rows of every
      input exactly when the predicate decides the same on every row. */
  lemma SwapIff(pred: Expr, items: seq<Item>, x: Exec)
    requires Vars(pred) !! Outputs(items)
    ensures (forall rows ::
        StepAll(Filter(1, pred), StepAll(Projection(0, false, items, false), rows, x), x)
        == StepAll(Projection(1, false, items, false), StepAll(Filter(0, pred), rows, x), x))
      <==> (forall row :: SameTruth(pred, row, x.env))
  {
    if forall row :: SameTruth(pred, row, x.env) {
      forall rows { SwapRows(1, 0, pred, items, rows, x); }
    } else {
      var row :| !SameTruth(pred, row, x.env);
      AboveProjection(pred, items, row, x.env);
      var projected := ProjectRow(items, false, row, x.env);
      SingleStep(Projection(0, false, items, false), row, x);
      SingleStep(Filter(1, pred), projected, x);
      SingleStep(Filter(0, pred), row, x);
      SingleStep(Projection(1, false, items, false), row, x);
      var above := StepAll(Filter(1, pred), StepAll(Projection(0, false, items, false), [row], x), x);
      var below := StepAll(Projection(1, false, items, false), StepAll(Filter(0, pred), [row], x), x);
      assert |above| != |below|;
    }
  }

  // ----- the swap in the arena -----

  lemma SameInputs(a: seq<LogicalOp>, b: seq<LogicalOp>, root: nat, live: set<nat>)
    requires PlanOk(root, a, live) && |a| == |b|
    requires forall k | 0 <= k < |a| :: Inputs(a[k]) == Inputs(b[k])
    requires forall k: nat | k < |a| && k !in live :: b[k].NodeScan?
    ensures PlanOk(root, b, live)
  {
    forall i | 0 <= i < |b| ensures InputsBelow(b[i], i) { assert InputsBelow(a[i], i); }
    forall i: nat, j: nat, c | i in live && j in live && i < j < |b| && c in Inputs(b[i])
      ensures c !in Inputs(b[j])
    {
      assert c in Inputs(a[i]);
    }
  }

  /** A filter that may be pushed and is well scoped reads no variable. */
  lemma PushedReadsNothing(nodes: seq<LogicalOp>, i: nat)
    requires Topological(nodes) && WellScoped(nodes) && i < |nodes| && nodes[i].Filter?
    requires nodes[i].input < i && CanPush(nodes[i], nodes[nodes[i].input])
    ensures Free(nodes[i].pred) == {}
  {
    FreeWithinVars(nodes[i].pred);
    var j := nodes[i].input;
    assert Produces(nodes, j) == Some(Outputs(nodes[j].items));
  }

  /** The swap keeps the shape of the plan, and touches only its two nodes. */
  lemma PushAtShape(root: nat, nodes: seq<LogicalOp>, live: set<nat>, i: nat)
    requires PlanOk(root, nodes, live) && PushAt(nodes, i) != nodes
    ensures i in live && nodes[i].input < i && root != nodes[i].input
    ensures PlanOk(root, PushAt(nodes, i), live)
    ensures Region(nodes, PushAt(nodes, i), i, {nodes[i].input}, live)
    ensures forall k: nat | k in live && k < |nodes| && k != i :: nodes[i].input !in Inputs(nodes[k])
  {
    var out, j := PushAt(nodes, i), nodes[i].input;
    assert InputsBelow(nodes[i], i) && j in Inputs(nodes[i]);
    SameInputs(nodes, out, root, live);
    OnlyParent(nodes, live, i, j);
  }

  /** Below the swap nothing moves, so both swapped nodes are ordered when the
      node they read is. */
  lemma SwapOrders(nodes: seq<LogicalOp>, i: nat)
    requires Topological(nodes) && Topological(PushAt(nodes, i)) && i < |nodes|
    requires nodes[i].Filter? && nodes[i].input < i && CanPush(nodes[i], nodes[nodes[i].input])
    ensures var out, j := PushAt(nodes, i), nodes[i].input;
      var k := nodes[j].input;
      && k < j && (Ordered(nodes, i) <==> Ordered(nodes, k)) && (Ordered(nodes, j) <==> Ordered(nodes, k))
      && (Ordered(out, i) <==> Ordered(nodes, k)) && (Ordered(out, j) <==> Ordered(nodes, k))
  {
    var out, j := PushAt(nodes, i), nodes[i].input;
    assert nodes[j].input in Inputs(nodes[j]) && InputsBelow(nodes[j], j);
    OrderedAgrees(nodes, out, nodes[j].input);
  }

  lemma SwapPermits(nodes: seq<LogicalOp>, i: nat, run: Run, x: Exec, arg: Row)
    requires Topological(nodes) && Topological(PushAt(nodes, i)) && i < |nodes|
    requires nodes[i].Filter? && nodes[i].input < i && CanPush(nodes[i], nodes[nodes[i].input])
    requires Free(nodes[i].pred) == {}
    requires Permits(PushAt(nodes, i), run, i, x, arg) && Permits(PushAt(nodes, i), run, nodes[i].input, x, arg)
    ensures var j := nodes[i].input;
      Permits(nodes, WithRows(run, j, Stepped(nodes[j], run, x)), i, x, arg)
  {
    var out, j, pred := PushAt(nodes, i), nodes[i].input, nodes[i].pred;
    var k, items := nodes[j].input, nodes[j].items;
    var before := WithRows(run, j, Stepped(nodes[j], run, x));
    SwapOrders(nodes, i);
    RowWisePermits(out, run, i, x, arg);
    RowWisePermits(out, run, j, x, arg);
    RowWisePermits(nodes, before, i, x, arg);
    SwapMakes(j, k, pred, items, Ordered(nodes, k), run(k, arg), run(j, arg), run(i, arg), x);
  }

  /** What projecting the filtered rows may yield, filtering the projected
      ones may too. */
  lemma SwapMakes(
    j: nat, k: nat, pred: Expr, items: seq<Item>, ordered: bool, rows: seq<Row>, kept: seq<Row>, out: seq<Row>, x: Exec)
    requires Vars(pred) !! Outputs(items) && Free(pred) == {}
    requires SameOrAny(ordered, kept, StepAll(Filter(k, pred), rows, x))
    requires SameOrAny(ordered, out, StepAll(Projection(j, false, items, false), kept, x))
    ensures SameOrAny(ordered, out, StepAll(Filter(j, pred), StepAll(Projection(k, false, items, false), rows, x), x))
  {
    forall row | row in rows ensures SameTruth(pred, row, x.env) { Coincidence(pred, row, map[], x.env); }
    SwapRows(j, k, pred, items, rows, x);
    StepSameOrAny(Projection(j, false, items, false), ordered, kept, StepAll(Filter(k, pred), rows, x), x);
  }

  /** A run of the plan after the swap is a run of the plan before it. */
  lemma PushAtRun(root: nat, nodes: seq<LogicalOp>, live: set<nat>, i: nat, run: Run, x: Exec) returns (before: Run)
    requires PlanOk(root, nodes, live) && WellScoped(nodes)
    requires Topological(PushAt(nodes, i)) && IsRun(PushAt(nodes, i), live, run, x)
    ensures IsRun(nodes, live, before, x) && forall arg :: before(root, arg) == run(root, arg)
  {
    var out := PushAt(nodes, i);
    before := run;
    if out != nodes {
      var j := nodes[i].input;
      PushAtShape(root, nodes, live, i);
      PushedReadsNothing(nodes, i);
      SwapOrders(nodes, i);
      before := WithRows(run, j, Stepped(nodes[j], run, x));
      SteppedPermits(nodes, run, j, x);
      forall arg ensures Permits(nodes, before, i, x, arg) {
        assert j in live by { assert j in Inputs(nodes[i]); }
        assert PermitsAll(out, run, i, x) && PermitsAll(out, run, j, x);
        SwapPermits(nodes, i, run, x, arg);
      }
      assert PermitsAll(nodes, before, i, x);
      RegionRun(nodes, out, i, {j}, live, live, run, before, x);
    }
  }

  lemma PushAtPlan(root: nat, nodes: seq<LogicalOp>, live: set<nat>, i: nat)
    requires PlanOk(root, nodes, live) && WellScoped(nodes)
    ensures PlanOk(root, PushAt(nodes, i), live) && WellScoped(PushAt(nodes, i))
  {
    if PushAt(nodes, i) != nodes {
      PushAtShape(root, nodes, live, i);
      PushedReadsNothing(nodes, i);
      SwapScoped(nodes, live, i);
    }
  }

  lemma {:induction false} SwapProduces(nodes: seq<LogicalOp>, live: set<nat>, i: nat, id: nat)
    requires Topological(nodes) && Topological(PushAt(nodes, i)) && i < |nodes|
    requires nodes[i].Filter? && nodes[i].input < i && CanPush(nodes[i], nodes[nodes[i].input])
    requires forall k: nat | k in live && k < |nodes| && k != i :: nodes[i].input !in Inputs(nodes[k])
    requires forall k: nat | k < |nodes| && k !in live :: nodes[k].NodeScan?
    requires id < |nodes| && id != nodes[i].input
    ensures Produces(PushAt(nodes, i), id) == Produces(nodes, id)
    decreases id
  {
    if id != i && nodes[id].Filter? {
      assert nodes[id].input in Inputs(nodes[id]) && InputsBelow(nodes[id], id);
      SwapProduces(nodes, live, i, nodes[id].input);
    }
  }

  lemma SwapScoped(nodes: seq<LogicalOp>, live: set<nat>, i: nat)
    requires Topological(nodes) && Topological(PushAt(nodes, i)) && WellScoped(nodes) && i < |nodes|
    requires nodes[i].Filter? && nodes[i].input < i && CanPush(nodes[i], nodes[nodes[i].input])
    requires Free(nodes[i].pred) == {}
    requires forall k: nat | k in live && k < |nodes| && k != i :: nodes[i].input !in Inputs(nodes[k])
    requires forall k: nat | k < |nodes| && k !in live :: nodes[k].NodeScan?
    ensures WellScoped(PushAt(nodes, i))
  {
    var out, j := PushAt(nodes, i), nodes[i].input;
    forall m | 0 <= m < |out| && out[m].Filter?
      ensures out[m].input < |out|
      ensures Produces(out, out[m].input).Some? ==>
        Free(out[m].pred) <= Produces(out, out[m].input).value
    {
      assert out[m].input in Inputs(out[m]) && InputsBelow(out[m], m);
      if m != j {
        assert nodes[m].input in Inputs(nodes[m]);
        SwapProduces(nodes, live, i, nodes[m].input);
      }
    }
  }

  /** The whole pass keeps the plan a forest in topological order and its
      predicates well scoped. */
  lemma {:induction false} PushKeepsPlan(root: nat, nodes: seq<LogicalOp>, live: set<nat>, i: nat)
    requires PlanOk(root, nodes, live) && WellScoped(nodes)
    ensures PlanOk(root, PushFrom(nodes, i), live) && WellScoped(PushFrom(nodes, i))
    decreases |nodes| - i
  {
    if i < |nodes| {
      PushAtPlan(root, nodes, live, i);
      PushKeepsPlan(root, PushAt(nodes, i), live, i + 1);
    }
  }

  /** And every run after it is a run before it, with the rows of the root. */
  lemma {:induction false} PushRuns(
    root: nat, nodes: seq<LogicalOp>, live: set<nat>, i: nat, run: Run, x: Exec) returns (before: Run)
    requires PlanOk(root, nodes, live) && WellScoped(nodes)
    requires Topological(PushFrom(nodes, i)) && IsRun(PushFrom(nodes, i), live, run, x)
    ensures IsRun(nodes, live, before, x) && forall arg :: before(root, arg) == run(root, arg)
    decreases |nodes| - i
  {
    before := run;
    if i < |nodes| {
      PushAtPlan(root, nodes, live, i);
      var middle := PushRuns(root, PushAt(nodes, i), live, i + 1, run, x);
      before := PushAtRun(root, nodes, live, i, middle, x);
    }
  }

  // ----- row for row -----

  /** No sort, filter or projection reads node `id`. */
  ghost predicate Topmost(nodes: seq<LogicalOp>, id: nat) {
    forall k | 0 <= k < |nodes| && (nodes[k].Sort? || nodes[k].Filter? || nodes[k].Projection?) ::
      nodes[k].input != id
  }

  lemma SwapDenotes(nodes: seq<LogicalOp>, i: nat, x: Exec)
    requires Topological(nodes) && Topological(PushAt(nodes, i)) && i < |nodes|
    requires nodes[i].Filter? && nodes[i].input < i && CanPush(nodes[i], nodes[nodes[i].input])
    requires Free(nodes[i].pred) == {}
    ensures SameRows(nodes, PushAt(nodes, i), i, x)
  {
    var out, j, pred := PushAt(nodes, i), nodes[i].input, nodes[i].pred;
    var k, items := nodes[j].input, nodes[j].items;
    assert k in Inputs(nodes[j]) && InputsBelow(nodes[j], j);
    forall arg ensures Denote(nodes, i, x, arg) == Denote(out, i, x, arg) {
      DenoteAgrees(nodes, out, k, x, arg);
      var rows := Denote(nodes, k, x, arg);
      forall row | row in rows ensures SameTruth(pred, row, x.env) {
        Coincidence(pred, row, map[], x.env);
      }
      SwapRows(j, k, pred, items, rows, x);
      assert Denote(nodes, j, x, arg) == StepAll(nodes[j], rows, x);
      assert Denote(out, j, x, arg) == StepAll(out[j], rows, x);
    }
  }

  lemma PushAtKeeps(root: nat, nodes: seq<LogicalOp>, live: set<nat>, i: nat, id: nat, x: Exec)
    requires PlanOk(root, nodes, live) && WellScoped(nodes)
    requires id < |nodes| && id in live && Topmost(nodes, id)
    ensures Topological(PushAt(nodes, i))
    ensures SameRows(nodes, PushAt(nodes, i), id, x) && Topmost(PushAt(nodes, i), id)
  {
    var out := PushAt(nodes, i);
    if out != nodes {
      PushAtShape(root, nodes, live, i);
      PushedReadsNothing(nodes, i);
      SwapDenotes(nodes, i, x);
      LiftSame(nodes, out, i, {nodes[i].input}, live, id, x);
    }
  }

  lemma PushThrough(nodes: seq<LogicalOp>, i: nat, id: nat, x: Exec)
    requires i < |nodes| && id < |nodes| && Topological(nodes) && Topological(PushAt(nodes, i))
    requires Topological(PushFrom(PushAt(nodes, i), i + 1))
    requires SameRows(nodes, PushAt(nodes, i), id, x)
    requires SameRows(PushAt(nodes, i), PushFrom(PushAt(nodes, i), i + 1), id, x)
    ensures Topological(PushFrom(nodes, i)) && SameRows(nodes, PushFrom(nodes, i), id, x)
  {
    SameRowsThrough(nodes, PushAt(nodes, i), PushFrom(PushAt(nodes, i), i + 1), id, x);
  }

  /** An execution keeps its rows in order, at the root and wherever else no
      filter, projection or sort reads. */
  lemma {:induction false} PushKeepsRows(root: nat, nodes: seq<LogicalOp>, live: set<nat>, i: nat, id: nat, x: Exec)
    requires PlanOk(root, nodes, live) && WellScoped(nodes)
    requires id < |nodes| && id in live && Topmost(nodes, id)
    ensures Topological(PushFrom(nodes, i)) && SameRows(nodes, PushFrom(nodes, i), id, x)
    decreases |nodes| - i
  {
    if i >= |nodes| { return; }
    var next := PushAt(nodes, i);
    PushAtPlan(root, nodes, live, i);
    PushAtKeeps(root, nodes, live, i, id, x);
    PushKeepsRows(root, next, live, i + 1, id, x);
    PushThrough(nodes, i, id, x);
  }
}
