/** What a plan may yield: its rows in every order that no ORDER BY fixes, and
    whichever rows a LIMIT then takes. */
module Runs {
  import opened Values
  import opened Expressions
  import opened Sorting
  import opened Logical
  import opened Arena

  /** The rows of every node, for every row its Argument may hold. */
  type Run = (nat, Row) -> seq<Row>

  /** A sort or an ordered scan fixes the order of its rows, and a single row
      has but one; filters, plain projections, UNWIND and LIMIT keep it. */
  ghost predicate Ordered(nodes: seq<LogicalOp>, id: nat)
    requires Topological(nodes) && id < |nodes|
  {
    var op := nodes[id];
    if op.Sort? || op.Argument? then true
    else if op.NodeSeek? then op.access.ByRange? && op.access.order.Some?
    else if KeepsOrder(op) then
      assert op.input in Inputs(op) && InputsBelow(op, id);
      Ordered(nodes, op.input)
    else false
  }

  predicate KeepsOrder(op: LogicalOp) {
    op.Filter? || op.Limit? || op.Unwind? || (op.Projection? && !op.distinct)
  }

  ghost function Fed(run: Run, input: Option<nat>, arg: Row): seq<Row> {
    match input case Some(i) => run(i, arg) case None => [arg]
  }

  ghost predicate InOrder(nodes: seq<LogicalOp>, input: Option<nat>)
    requires Topological(nodes)
  {
    input.Some? && input.value < |nodes| && Ordered(nodes, input.value)
  }

  ghost predicate SortedPerm(keys: seq<SortKey>, list: seq<Row>, rows: seq<Row>, x: Exec) {
    Perm(list, rows) && Sorted(keys, list, x.env, x.le)
  }

  function Cut(rows: seq<Row>, bound: Option<nat>): seq<Row> {
    match bound case None => rows case Some(n) => Take(rows, n)
  }

  /** A sort may put rows equal on every key in any order; one whose input is
      in order of its leading keys only sorts its runs. */
  ghost predicate SortMakes(sort: LogicalOp, rows: seq<Row>, out: seq<Row>, x: Exec)
    requires sort.Sort?
  {
    if sort.presorted > 0 then out == SortRows(sort, rows, x)
    else exists list ::
      SortedPerm(sort.keys, list, rows, x) && out == Cut(list, SortBound(sort.topK, sort.bound, x.env))
  }

  ghost predicate SameOrAny(ordered: bool, a: seq<Row>, b: seq<Row>) {
    if ordered then a == b else Perm(a, b)
  }

  ghost predicate LimitMakes(limit: LogicalOp, ordered: bool, rows: seq<Row>, out: seq<Row>, x: Exec)
    requires limit.Limit?
  {
    exists list :: SameOrAny(ordered, list, rows) && out == LimitRows(list, limit.skip, limit.limit, x.env)
  }

  /** What an operator without sub-plans may make of `rows`. */
  ghost predicate Makes(op: LogicalOp, ordered: bool, rows: seq<Row>, out: seq<Row>, x: Exec) {
    if op.Sort? then SortMakes(op, rows, out, x)
    else if op.Limit? then LimitMakes(op, ordered, rows, out, x)
    else SameOrAny(ordered, out, Apply(op, rows, x))
  }

  ghost function BranchRows(run: Run, unions: seq<UnionBranch>, row: Row): seq<Row> {
    if unions == [] then [] else run(unions[0].inner, row) + BranchRows(run, unions[1..], row)
  }

  ghost function OptionalEach(run: Run, op: LogicalOp): Row -> seq<Row>
    requires op.OptionalMatch?
  {
    (row: Row) => OptionalRows(row, run(op.inner, row), op.newVars)
  }

  ghost function CallEach(run: Run, op: LogicalOp): Row -> seq<Row>
    requires op.CallSubquery?
  {
    (row: Row) => CallRows(row, run(op.inner, row), BranchRows(run, op.unions, row), op.unions)
  }

  /** The rows at `id` are some its operator may make of those at its inputs. */
  ghost predicate Permits(nodes: seq<LogicalOp>, run: Run, id: nat, x: Exec, arg: Row)
    requires Topological(nodes) && id < |nodes|
  {
    var op := nodes[id];
    var rows := Fed(run, Upstream(op), arg);
    if op.OptionalMatch? then Perm(run(id, arg), FlatMap(OptionalEach(run, op), rows))
    else if op.CallSubquery? then Perm(run(id, arg), FlatMap(CallEach(run, op), rows))
    else Makes(op, if op.Limit? then InOrder(nodes, Some(op.input)) else Ordered(nodes, id), rows, run(id, arg), x)
  }

  ghost predicate PermitsAll(nodes: seq<LogicalOp>, run: Run, id: nat, x: Exec)
    requires Topological(nodes) && id < |nodes|
  {
    forall arg :: Permits(nodes, run, id, x, arg)
  }

  /** One possible run of a plan: every node in use has rows it may have. */
  ghost predicate IsRun(nodes: seq<LogicalOp>, live: set<nat>, run: Run, x: Exec)
    requires Topological(nodes)
  {
    forall id: nat | id in live && id < |nodes| :: PermitsAll(nodes, run, id, x)
  }

  // ----- an execution is a run -----

  ghost function Exactly(nodes: seq<LogicalOp>, x: Exec): Run
    requires Topological(nodes)
  {
    (id: nat, arg: Row) => if id < |nodes| then Denote(nodes, id, x, arg) else []
  }

  lemma SortIsMade(sort: LogicalOp, rows: seq<Row>, x: Exec)
    requires sort.Sort? && TotalPreorder(x.le)
    ensures SortMakes(sort, rows, SortRows(sort, rows, x), x)
  {
    if sort.presorted == 0 {
      SortKeeps(sort.keys, rows, x.env, x.le);
      SortSorts(sort.keys, rows, x.env, x.le);
      assert SortedPerm(sort.keys, StableSort(sort.keys, rows, x.env, x.le), rows, x);
    }
  }

  lemma ApplyIsMade(op: LogicalOp, ordered: bool, rows: seq<Row>, x: Exec)
    requires TotalPreorder(x.le)
    ensures Makes(op, ordered, rows, Apply(op, rows, x), x)
  {
    if op.Sort? { SortIsMade(op, rows, x); }
    if op.Limit? { assert SameOrAny(ordered, rows, rows); }
  }

  lemma {:induction false} ExactBranches(
    nodes: seq<LogicalOp>, below: nat, unions: seq<UnionBranch>, arg: Row, x: Exec)
    requires Topological(nodes) && 0 < below <= |nodes|
    requires forall b | 0 <= b < |unions| :: unions[b].inner < below
    ensures BranchRows(Exactly(nodes, x), unions, arg) == UnionRows(nodes, below, unions, arg, x)
  {
    if unions != [] { ExactBranches(nodes, below, unions[1..], arg, x); }
  }

  lemma ExactCall(nodes: seq<LogicalOp>, id: nat, rows: seq<Row>, x: Exec)
    requires Topological(nodes) && id < |nodes| && nodes[id].CallSubquery? && nodes[id].inner < id
    requires forall b | 0 <= b < |nodes[id].unions| :: nodes[id].unions[b].inner < id
    ensures var inner, unions := nodes[id].inner, nodes[id].unions;
      FlatMap(CallEach(Exactly(nodes, x), nodes[id]), rows)
      == FlatMap((row: Row) => CallRows(row, Denote(nodes, inner, x, row), UnionRows(nodes, id, unions, row, x), unions),
                 rows)
  {
    var op, run, inner, unions := nodes[id], Exactly(nodes, x), nodes[id].inner, nodes[id].unions;
    forall row ensures BranchRows(run, unions, row) == UnionRows(nodes, id, unions, row, x) {
      ExactBranches(nodes, id, unions, row, x);
    }
    FlatMapSame(
      (row: Row) => CallRows(row, Denote(nodes, inner, x, row), UnionRows(nodes, id, unions, row, x), unions),
      CallEach(run, op), rows);
  }

  lemma ExactPermits(nodes: seq<LogicalOp>, id: nat, x: Exec, arg: Row)
    requires Topological(nodes) && id < |nodes| && TotalPreorder(x.le)
    ensures Permits(nodes, Exactly(nodes, x), id, x, arg)
  {
    var op, run := nodes[id], Exactly(nodes, x);
    assert InputsBelow(op, id);
    var rows := InputRows(nodes, Upstream(op), x, arg);
    assert Fed(run, Upstream(op), arg) == rows;
    match op
    case OptionalMatch(_, inner, newVars) =>
      assert inner in Inputs(op);
      FlatMapSame((row: Row) => OptionalRows(row, Denote(nodes, inner, x, row), newVars), OptionalEach(run, op), rows);
    case CallSubquery(_, inner, _, _) =>
      assert inner in Inputs(op);
      BranchesInInputs(op);
      ExactCall(nodes, id, rows, x);
    case Limit(input, _, _) => ApplyIsMade(op, InOrder(nodes, Some(input)), rows, x);
    case _ => ApplyIsMade(op, Ordered(nodes, id), rows, x);
  }

  /** Every execution is a run. */
  lemma ExactIsRun(nodes: seq<LogicalOp>, live: set<nat>, x: Exec)
    requires Topological(nodes) && TotalPreorder(x.le)
    ensures IsRun(nodes, live, Exactly(nodes, x), x)
  {
    forall id: nat, arg | id in live && id < |nodes| ensures Permits(nodes, Exactly(nodes, x), id, x, arg) {
      ExactPermits(nodes, id, x, arg);
    }
  }

  // ----- rewriting a region -----

  /** Outside the region both arenas keep the same orders. */
  lemma {:induction false} SameOrders(
    a: seq<LogicalOp>, b: seq<LogicalOp>, top: nat, inside: set<nat>, live: set<nat>, id: nat)
    requires Region(a, b, top, inside, live) && id in live && id !in inside && id < |a|
    requires Ordered(a, top) == Ordered(b, top)
    ensures Ordered(a, id) == Ordered(b, id)
    decreases id
  {
    var op := a[id];
    if id != top && KeepsOrder(op) {
      assert op.input in Inputs(op) && InputsBelow(op, id);
      SameOrders(a, b, top, inside, live, op.input);
    }
  }

  ghost predicate AgreeOutside(run: Run, other: Run, inside: set<nat>) {
    forall id: nat, arg | id !in inside :: run(id, arg) == other(id, arg)
  }

  lemma {:induction false} SameBranches(run: Run, other: Run, inside: set<nat>, unions: seq<UnionBranch>, row: Row)
    requires AgreeOutside(run, other, inside) && forall k | 0 <= k < |unions| :: unions[k].inner !in inside
    ensures BranchRows(run, unions, row) == BranchRows(other, unions, row)
  {
    if unions != [] { SameBranches(run, other, inside, unions[1..], row); }
  }

  lemma OutsidePermits(
    a: seq<LogicalOp>, b: seq<LogicalOp>, top: nat, inside: set<nat>, live: set<nat>,
    run: Run, other: Run, id: nat, x: Exec, arg: Row)
    requires Region(a, b, top, inside, live) && Ordered(a, top) == Ordered(b, top)
    requires AgreeOutside(run, other, inside)
    requires id in live && id < |a| && id != top && id !in inside
    requires Permits(b, run, id, x, arg)
    ensures Permits(a, other, id, x, arg)
  {
    var op := a[id];
    assert InputsBelow(op, id);
    SameOrders(a, b, top, inside, live, id);
    var rows := Fed(run, Upstream(op), arg);
    assert Fed(other, Upstream(op), arg) == rows;
    match op
    case OptionalMatch(_, inner, _) =>
      assert inner in Inputs(op);
      FlatMapSame(OptionalEach(run, op), OptionalEach(other, op), rows);
    case CallSubquery(_, inner, unions, _) =>
      assert inner in Inputs(op);
      BranchesInInputs(op);
      forall row ensures BranchRows(run, unions, row) == BranchRows(other, unions, row) {
        SameBranches(run, other, inside, unions, row);
      }
      FlatMapSame(CallEach(run, op), CallEach(other, op), rows);
    case Limit(input, _, _) =>
      assert input in Inputs(op);
      SameOrders(a, b, top, inside, live, input);
    case _ =>
  }

  /** A rewrite confined to nodes only its top reads: a run of the rewritten
      plan is one of the plan as it was, once the nodes inside have rows they
      may have had and the top may have made its rows of them. */
  lemma RegionRun(
    a: seq<LogicalOp>, b: seq<LogicalOp>, top: nat, inside: set<nat>, live: set<nat>, live': set<nat>,
    run: Run, other: Run, x: Exec)
    requires Region(a, b, top, inside, live) && Ordered(a, top) == Ordered(b, top)
    requires AgreeOutside(run, other, inside) && IsRun(b, live', run, x)
    requires forall id: nat | id in live && id != top && id !in inside :: id in live'
    requires forall id: nat | id in inside + {top} && id in live && id < |a| :: PermitsAll(a, other, id, x)
    ensures IsRun(a, live, other, x)
  {
    forall id: nat, arg | id in live && id < |a| ensures Permits(a, other, id, x, arg) {
      if id in inside + {top} {
        assert PermitsAll(a, other, id, x);
      } else {
        assert PermitsAll(b, run, id, x);
        OutsidePermits(a, b, top, inside, live, run, other, id, x, arg);
      }
    }
  }

  // ----- giving a node other rows -----

  ghost function WithRows(run: Run, j: nat, rows: Row -> seq<Row>): Run {
    (id: nat, arg: Row) => if id == j then rows(arg) else run(id, arg)
  }

  /** What a row-wise operator makes of its input, in its order. */
  ghost function Stepped(op: LogicalOp, run: Run, x: Exec): Row -> seq<Row> {
    (arg: Row) => StepAll(op, Fed(run, Upstream(op), arg), x)
  }

  /** What a row-wise node may make of its input. */
  lemma RowWisePermits(nodes: seq<LogicalOp>, run: Run, id: nat, x: Exec, arg: Row)
    requires Topological(nodes) && id < |nodes| && RowWise(nodes[id])
    ensures Permits(nodes, run, id, x, arg)
      <==> SameOrAny(Ordered(nodes, id), run(id, arg), StepAll(nodes[id], Fed(run, Upstream(nodes[id]), arg), x))
  {
    var op, rows := nodes[id], Fed(run, Upstream(nodes[id]), arg);
    assert Makes(op, Ordered(nodes, id), rows, run(id, arg), x)
      <==> SameOrAny(Ordered(nodes, id), run(id, arg), StepAll(op, rows, x));
  }

  /** What a sort may make of its input. */
  lemma SortPermits(nodes: seq<LogicalOp>, run: Run, id: nat, x: Exec, arg: Row)
    requires Topological(nodes) && id < |nodes| && nodes[id].Sort?
    ensures Permits(nodes, run, id, x, arg) <==> SortMakes(nodes[id], run(nodes[id].input, arg), run(id, arg), x)
  {}

  lemma LimitPermits(nodes: seq<LogicalOp>, run: Run, id: nat, x: Exec, arg: Row)
    requires Topological(nodes) && id < |nodes| && nodes[id].Limit? && nodes[id].input < id
    ensures Permits(nodes, run, id, x, arg)
      <==> LimitMakes(nodes[id], Ordered(nodes, nodes[id].input), run(nodes[id].input, arg), run(id, arg), x)
  {}

  lemma SteppedPermits(nodes: seq<LogicalOp>, run: Run, j: nat, x: Exec)
    requires Topological(nodes) && j < |nodes| && RowWise(nodes[j])
    ensures PermitsAll(nodes, WithRows(run, j, Stepped(nodes[j], run, x)), j, x)
  {
    var stepped := WithRows(run, j, Stepped(nodes[j], run, x));
    assert InputsBelow(nodes[j], j);
    forall arg ensures Permits(nodes, stepped, j, x, arg) {
      RowWisePermits(nodes, stepped, j, x, arg);
      assert Fed(stepped, Upstream(nodes[j]), arg) == Fed(run, Upstream(nodes[j]), arg);
    }
  }

  lemma {:induction false} OrderedAgrees(a: seq<LogicalOp>, b: seq<LogicalOp>, id: nat)
    requires Topological(a) && Topological(b) && AgreeUpTo(a, b, id)
    ensures Ordered(a, id) == Ordered(b, id)
    decreases id
  {
    if KeepsOrder(a[id]) {
      assert a[id].input in Inputs(a[id]) && InputsBelow(a[id], id);
      OrderedAgrees(a, b, a[id].input);
    }
  }

  lemma StepSameOrAny(op: LogicalOp, ordered: bool, a: seq<Row>, b: seq<Row>, x: Exec)
    requires RowWise(op) && SameOrAny(ordered, a, b)
    ensures SameOrAny(ordered, StepAll(op, a, x), StepAll(op, b, x))
  {
    if !ordered { StepAllPerm(op, a, b, x); }
  }

  // ----- where nothing counts rows -----

  lemma MadeUncounted(op: LogicalOp, ordered: bool, rows: seq<Row>, out: seq<Row>, x: Exec)
    requires OrderFree(op) && Makes(op, ordered, rows, out, x)
    ensures Perm(out, Apply(op, rows, x))
  {
    if op.Sort? { SortRowsKeep(op, rows, x); }
  }

  lemma {:induction false} UncountedBranches(
    nodes: seq<LogicalOp>, below: nat, run: Run, unions: seq<UnionBranch>, x: Exec, arg: Row)
    requires Topological(nodes) && 0 < below <= |nodes|
    requires forall b | 0 <= b < |unions| ::
      unions[b].inner < below && Perm(run(unions[b].inner, arg), Denote(nodes, unions[b].inner, x, arg))
    ensures Perm(BranchRows(run, unions, arg), UnionRows(nodes, below, unions, arg, x))
  {
    if unions != [] { UncountedBranches(nodes, below, run, unions[1..], x, arg); }
  }

  /** No LIMIT counts rows and no grouping sees their order. */
  ghost predicate NothingCounts(nodes: seq<LogicalOp>, x: Exec) {
    forall k | 0 <= k < |nodes| :: OrderFree(nodes[k]) && OpBlind(nodes[k], x)
  }

  /** A run of a plan in which nothing counts rows or sees their order has the
      rows of its execution, each as often. */
  lemma {:induction false} UncountedRun(
    root: nat, nodes: seq<LogicalOp>, live: set<nat>, run: Run, id: nat, x: Exec, arg: Row)
    requires PlanOk(root, nodes, live) && IsRun(nodes, live, run, x) && id in live && NothingCounts(nodes, x)
    ensures Perm(run(id, arg), Denote(nodes, id, x, arg))
    decreases id, 1
  {
    var op := nodes[id];
    assert InputsBelow(op, id);
    assert PermitsAll(nodes, run, id, x);
    if Upstream(op).Some? { UncountedRun(root, nodes, live, run, Upstream(op).value, x, arg); }
    var rows, exact := Fed(run, Upstream(op), arg), InputRows(nodes, Upstream(op), x, arg);
    assert Perm(rows, exact) && Permits(nodes, run, id, x, arg);
    if op.OptionalMatch? {
      assert op.inner in Inputs(op);
      UncountedOptional(root, nodes, live, run, id, rows, exact, x);
    } else if op.CallSubquery? {
      assert op.inner in Inputs(op);
      BranchesInInputs(op);
      UncountedCall(root, nodes, live, run, id, rows, exact, x);
    } else {
      UncountedPlain(nodes, run, id, rows, exact, x, arg);
    }
  }

  lemma UncountedPlain(
    nodes: seq<LogicalOp>, run: Run, id: nat, rows: seq<Row>, exact: seq<Row>, x: Exec, arg: Row)
    requires Topological(nodes) && id < |nodes| && Plain(nodes[id]) && NothingCounts(nodes, x)
    requires rows == Fed(run, Upstream(nodes[id]), arg) && Permits(nodes, run, id, x, arg) && Perm(rows, exact)
    ensures Perm(run(id, arg), Apply(nodes[id], exact, x))
  {
    MadeUncounted(nodes[id], Ordered(nodes, id), rows, run(id, arg), x);
    ApplyPerm(nodes[id], rows, exact, x);
  }

  lemma {:induction false} UncountedOptional(
    root: nat, nodes: seq<LogicalOp>, live: set<nat>, run: Run, id: nat, rows: seq<Row>, exact: seq<Row>, x: Exec)
    requires PlanOk(root, nodes, live) && IsRun(nodes, live, run, x) && id in live && NothingCounts(nodes, x)
    requires nodes[id].OptionalMatch? && Perm(rows, exact) && nodes[id].inner < id
    ensures var inner, newVars := nodes[id].inner, nodes[id].newVars;
      Perm(FlatMap(OptionalEach(run, nodes[id]), rows),
           FlatMap((row: Row) => OptionalRows(row, Denote(nodes, inner, x, row), newVars), exact))
    decreases id, 0
  {
    var op, inner, newVars := nodes[id], nodes[id].inner, nodes[id].newVars;
    assert inner in Inputs(op);
    var f := (row: Row) => OptionalRows(row, Denote(nodes, inner, x, row), newVars);
    forall row ensures Perm(OptionalEach(run, op)(row), f(row)) {
      UncountedRun(root, nodes, live, run, inner, x, row);
      OptionalRowsPerm(row, run(inner, row), Denote(nodes, inner, x, row), newVars);
    }
    FlatMapPermEach(OptionalEach(run, op), f, rows);
    FlatMapPerm(f, rows, exact);
  }

  lemma {:induction false} UncountedCall(
    root: nat, nodes: seq<LogicalOp>, live: set<nat>, run: Run, id: nat, rows: seq<Row>, exact: seq<Row>, x: Exec)
    requires PlanOk(root, nodes, live) && IsRun(nodes, live, run, x) && id in live && nodes[id].CallSubquery?
    requires NothingCounts(nodes, x) && Perm(rows, exact) && InputsBelow(nodes[id], id) && nodes[id].inner < id
    requires forall b | 0 <= b < |nodes[id].unions| :: nodes[id].unions[b].inner < id
    ensures var inner, unions := nodes[id].inner, nodes[id].unions;
      Perm(FlatMap(CallEach(run, nodes[id]), rows),
           FlatMap((row: Row) => CallRows(row, Denote(nodes, inner, x, row), UnionRows(nodes, id, unions, row, x), unions),
                   exact))
    decreases id, 0
  {
    var op, inner, unions := nodes[id], nodes[id].inner, nodes[id].unions;
    assert inner in Inputs(op);
    BranchesInInputs(op);
    var f := (row: Row) => CallRows(row, Denote(nodes, inner, x, row), UnionRows(nodes, id, unions, row, x), unions);
    forall row ensures Perm(CallEach(run, op)(row), f(row)) {
      UncountedRun(root, nodes, live, run, inner, x, row);
      forall b | 0 <= b < |unions| ensures Perm(run(unions[b].inner, row), Denote(nodes, unions[b].inner, x, row)) {
        UncountedRun(root, nodes, live, run, unions[b].inner, x, row);
      }
      UncountedBranches(nodes, id, run, unions, x, row);
      CallRowsPerm(row, run(inner, row), Denote(nodes, inner, x, row),
                   BranchRows(run, unions, row), UnionRows(nodes, id, unions, row, x), unions);
    }
    FlatMapPermEach(CallEach(run, op), f, rows);
    FlatMapPerm(f, rows, exact);
  }
}
