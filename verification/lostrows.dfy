/** Queries a pass loses rows of: a relationship seek whose value reads a node
    of the pattern, and an ordered scan whose bound reads a projected alias. */
module LostRows {
  import opened Values
  import opened Expressions
  import opened Conjuncts
  import opened Sorting
  import opened Logical
  import opened Arena
  import opened Planning
  import opened Walks
  import opened RangeBounds
  import opened Accesses
  import opened NodeSeeks
  import opened RelSeeks
  import opened FilterPush
  import opened Clauses
  import opened Queries
  import opened SortOrder
  import opened OrderPass

  /** Builtins as the passes assume them. */
  function BuiltinCall(g: Graph, name: string, args: seq<Value>): Value {
    if |args| == 1 then
      match args[0]
      case NodeRef(id) => Int(id)
      case RelRef(id) => Int(id)
      case Text(s) =>
        if name != PREFIX_END || PrefixEnd(s).None? then Null else Text(PrefixEnd(s).value)
      case _ => Null
    else if |args| == 2 && args[0].NodeRef? && args[1].Text? then
      Bool(g.HasNode(args[0].node) && args[1].text in g.nodes[args[0].node].value.labels)
    else Null
  }

  function BuiltinEnv(g: Graph): Env {
    Env(g, map[], (name: string, args: seq<Value>) => BuiltinCall(g, name, args),
        (name: string, args: seq<Value>) => false, (id: nat, row: Row) => Null)
  }

  function SmallExec(g: Graph, ids: seq<nat>, rels: seq<nat>): Exec {
    Exec(BuiltinEnv(g), (op: LogicalOp) => ids, (op: LogicalOp) => rels,
         (keys: seq<Item>, aggregates: seq<Item>, rows: seq<Row>) => [],
         (a: Value, b: Value) => true)
  }

  lemma SmallExecValid(g: Graph, ids: seq<nat>, rels: seq<nat>)
    requires g.Valid() && NoDup(ids) && NoDup(rels)
    requires forall id: nat :: id in ids <==> g.HasNode(id)
    requires forall id: nat :: id in rels <==> g.HasRel(id)
    ensures ExecValid(SmallExec(g, ids, rels)) && Builtins(BuiltinEnv(g))
  {}

  /** A seek for an id that is null finds no relationship. */
  lemma {:induction false} NullIdFindsNothing(op: LogicalOp, rels: seq<nat>, row: Row, env: Env)
    requires op.RelSeek? && op.access.ById? && Eval(op.access.ids, row, env).Null?
    ensures RelSeekRows(op, rels, row, env) == []
  {
    if rels != [] { NullIdFindsNothing(op, rels[1..], row, env); }
  }

  /** So an id seek whose value is a property of a variable the row does not
      bind keeps the rows under the filter exactly when there are none. */
  lemma UnboundSeekIff(
    scan: LogicalOp, expand: LogicalOp, u: VarId, key: string, inList: bool, pred: Expr, row: Row, x: Exec)
    requires scan.NodeScan? && expand.Expand? && expand.relVar.Some? && u !in row
    ensures var seek := RelSeekFor(scan, expand, ById(Property(Variable(u), key), inList));
      var kept := Keep([pred], StepAll(expand, Step(scan, row, x), x), x.env);
      Perm(kept, Keep([pred], Step(seek, row, x), x.env)) <==> kept == []
  {
    var seek := RelSeekFor(scan, expand, ById(Property(Variable(u), key), inList));
    var kept := Keep([pred], StepAll(expand, Step(scan, row, x), x), x.env);
    NullIdFindsNothing(seek, x.relOrder(Detached(seek)), row, x.env);
    if Perm(kept, []) { PermLength(kept, []); }
  }

  /** `MATCH (a)-[r]->(b) WHERE id(r) = a.favourite`, planned. */
  function FavouritePlan(): seq<LogicalOp> {
    [NodeScan(None, 0, []), Expand(0, 0, Some(1), 2, [], Right, None),
     Filter(1, Binary(Call("edge.id", false, false, [Variable(1)]), Eq, Property(Variable(0), "favourite")))]
  }

  /** One relationship, from the node whose favourite it is. */
  function FavouriteGraph(): Graph {
    Graph([Some(NodeRecord({}, map["favourite" := Int(0)])), Some(NodeRecord({}, map[]))],
          [Some(RelRecord(0, 1, "T", map[]))])
  }

  function FavouriteRow(): Row { map[0 := NodeRef(0), 2 := NodeRef(1), 1 := RelRef(0)] }

  lemma FavouriteSeek(advice: Advice)
    ensures RelSeekAt(FavouritePlan(), 2, advice)
      == FavouritePlan()[1 := RelSeek(None, 0, [], 1, 2, [], Right,
                                      ById(Property(Variable(0), "favourite"), false))]
  {
    var pred := FavouritePlan()[2].pred;
    assert ConjunctsOf(pred) == [pred];
    assert IdEquality(pred, 1, REL_ID_FUNCTIONS) == Some(pred.rhs);
  }

  lemma FavouriteScan()
    ensures Step(FavouritePlan()[0], map[], SmallExec(FavouriteGraph(), [0, 1], [0]))
         == [map[0 := NodeRef(0)], map[0 := NodeRef(1)]]
  {
    var x, scan, row: Row := SmallExec(FavouriteGraph(), [0, 1], [0]), FavouritePlan()[0], map[];
    assert [0, 1][1..] == [1] && [1][1..] == [];
    assert ScanRows(scan, [], row, x.env) == [];
    assert ScanRows(scan, [1], row, x.env) == [row[0 := NodeRef(1)]];
  }

  lemma FavouriteHop()
    ensures StepAll(FavouritePlan()[1], [map[0 := NodeRef(0)], map[0 := NodeRef(1)]],
                    SmallExec(FavouriteGraph(), [0, 1], [0])) == [FavouriteRow()]
  {
    var x, expand := SmallExec(FavouriteGraph(), [0, 1], [0]), FavouritePlan()[1];
    var g, a: Row, b: Row := x.env.graph, map[0 := NodeRef(0)], map[0 := NodeRef(1)];
    assert Outgoing(g, 0, [], 0) == [] && Outgoing(g, 1, [], 0) == [];
    assert ExpandFrom(g, 0, Right, []) == [(0, 1)];
    assert ExpandFrom(g, 1, Right, []) == [];
    assert [(0, 1)][1..] == [];
    assert ExpandRows(expand, [], a, x.env) == [];
    assert ExpandRow(expand, 0, 1, a, x.env) == [FavouriteRow()];
    assert Step(expand, a, x) == [FavouriteRow()] && Step(expand, b, x) == [];
    assert [a, b][1..] == [b];
    SingleStep(expand, b, x);
  }

  lemma FavouriteKept()
    ensures Eval(FavouritePlan()[2].pred, FavouriteRow(), BuiltinEnv(FavouriteGraph())).Truthy()
  {
    var env, row, pred := BuiltinEnv(FavouriteGraph()), FavouriteRow(), FavouritePlan()[2].pred;
    assert pred.lhs.args[1..] == [];
    assert EvalAll(pred.lhs.args, row, env) == [RelRef(0)];
    assert Eval(pred.rhs.base, row, env) == NodeRef(0);
  }

  lemma FavouriteFound()
    ensures Topological(FavouritePlan())
    ensures Denote(FavouritePlan(), 2, SmallExec(FavouriteGraph(), [0, 1], [0]), map[]) == [FavouriteRow()]
  {
    var x, plan := SmallExec(FavouriteGraph(), [0, 1], [0]), FavouritePlan();
    FavouriteHops();
    FavouriteKept();
    SingleStep(plan[2], FavouriteRow(), x);
  }

  lemma FavouriteHops()
    ensures Topological(FavouritePlan())
    ensures Denote(FavouritePlan(), 1, SmallExec(FavouriteGraph(), [0, 1], [0]), map[]) == [FavouriteRow()]
  {
    FavouriteScans();
    FavouriteHop();
  }

  lemma FavouriteScans()
    ensures Topological(FavouritePlan())
    ensures Denote(FavouritePlan(), 0, SmallExec(FavouriteGraph(), [0, 1], [0]), map[])
         == [map[0 := NodeRef(0)], map[0 := NodeRef(1)]]
  {
    SingleStep(FavouritePlan()[0], map[], SmallExec(FavouriteGraph(), [0, 1], [0]));
    FavouriteScan();
  }

  lemma NullSeekPlan(nodes: seq<LogicalOp>, pred: Expr, op: LogicalOp, x: Exec)
    requires Topological(nodes) && |nodes| == 3 && nodes[1] == op && nodes[2] == Filter(1, pred)
    requires op.RelSeek? && op.source.None? && op.access.ById? && Eval(op.access.ids, map[], x.env).Null?
    ensures Denote(nodes, 2, x, map[]) == []
  {
    SingleStep(op, map[], x);
    NullIdFindsNothing(op, x.relOrder(Detached(op)), map[], x.env);
    assert Denote(nodes, 1, x, map[]) == [];
    assert StepAll(nodes[2], [], x) == [];
  }

  /** The plan has a match; rewritten to the seek it has none. */
  lemma FavouriteIsLost(advice: Advice)
    ensures var x := SmallExec(FavouriteGraph(), [0, 1], [0]);
      && ExecValid(x) && Builtins(x.env)
      && Topological(FavouritePlan()) && Topological(RelSeekAt(FavouritePlan(), 2, advice))
      && Denote(FavouritePlan(), 2, x, map[]) == [FavouriteRow()]
      && Denote(RelSeekAt(FavouritePlan(), 2, advice), 2, x, map[]) == []
  {
    SmallExecValid(FavouriteGraph(), [0, 1], [0]);
    FavouriteFound();
    FavouriteSought(advice);
  }

  lemma FavouriteSought(advice: Advice)
    ensures Topological(RelSeekAt(FavouritePlan(), 2, advice))
    ensures Denote(RelSeekAt(FavouritePlan(), 2, advice), 2, SmallExec(FavouriteGraph(), [0, 1], [0]), map[]) == []
  {
    var x := SmallExec(FavouriteGraph(), [0, 1], [0]);
    FavouriteSeek(advice);
    var out := RelSeekAt(FavouritePlan(), 2, advice);
    assert Eval(Variable(0), map[], x.env) == Null;
    NullSeekPlan(out, out[2].pred, out[1], x);
  }

  // ====================
  // A query that an ordered scan empties: its bound reads a projected alias, which is
  // not bound yet at the scan.

  function Key(): Expr { Property(Variable(0), "k") }

  function AliasPred(): Expr {
    Binary(Binary(Key(), Gt, Variable(1)), Or, Binary(Key(), IsNull, Literal(Null)))
  }

  function Lead(): SortKey { SortKey(Key(), Asc, Last) }

  /** `MATCH (n:L) WITH *, 5 AS y WHERE n.k > y OR n.k IS NULL RETURN n ORDER BY n.k`. */
  function AliasQuery(): seq<QueryClause> {
    [MatchClause(false, [Part(None, Chain(NodePattern(0, [["L"]], None), []), false)], None),
     WithClause(FivesColumns(), Some(AliasPred())),
     ReturnClause(NodeColumns())]
  }

  function FivesColumns(): Clause { Clause([Item(Literal(Int(5)), 1)], [], false, true, [], None, None) }

  function NodeColumns(): Clause { Clause([Item(Variable(0), 2)], [], false, false, [Lead()], None, None) }

  function AliasPlan(): seq<LogicalOp> {
    [NodeScan(None, 0, [["L"]]),
     Projection(0, false, [Item(Literal(Int(5)), 1)], true),
     Filter(1, AliasPred()),
     Projection(2, false, [Item(Variable(0), 2)], true),
     Sort(3, [Lead()], None, None, 0),
     Projection(4, false, [Item(Variable(2), 2)], false)]
  }

  // ----- it is the plan of the query -----

  lemma PlannedMatch()
    ensures PlanClause([], None, AliasQuery()[0]) == ([NodeScan(None, 0, [["L"]])], 0)
  {
    var parts := AliasQuery()[0].parts;
    assert parts[1..] == [];
    assert PatternVars(parts) == {0};
    var st := Initial([], []);
    assert [] + Exprs([]) == [];
    assert PlanNode(st, None, parts[0].chain.head).st.nodes == [NodeScan(None, 0, [["L"]])];
    assert PlanPattern(st, None, parts).st.pending == [];
  }

  lemma PlannedWith(first: seq<LogicalOp>)
    requires |first| == 1
    ensures PlanClause(first, Some(0), AliasQuery()[1])
         == (first + [Projection(0, false, [Item(Literal(Int(5)), 1)], true), Filter(1, AliasPred())], 2)
  {
    var c, op := FivesColumns(), Projection(0, false, [Item(Literal(Int(5)), 1)], true);
    assert ClauseOps(c) == [op];
    assert [op][1..] == [];
    assert PushAll(first, 0, [op]) == PushAll(first + [op], 1, []);
    assert PushAll(first, 0, ClauseOps(c)) == (first + [op], 1);
    assert first + [op] + [Filter(1, AliasPred())] == first + [op, Filter(1, AliasPred())];
  }

  lemma ReturnOps()
    ensures ClauseOps(NodeColumns())
         == [Projection(0, false, [Item(Variable(0), 2)], true), Sort(0, [Lead()], None, None, 0),
             Projection(0, false, [Item(Variable(2), 2)], false)]
  {
    var c := NodeColumns();
    assert c.order[1..] == [] && c.items[1..] == [];
    assert FindExpr(c.items, Key()) == None;
    assert KeysOnReads([], c.items) == [];
    assert KeysOnReads(c.order, c.items) == [Lead()];
    assert Passthrough(c.items[1..]) == [];
    assert Passthrough(c.items) == [Item(Variable(2), 2)];
    assert TrimOp(c) == Projection(0, false, [Item(Variable(2), 2)], false);
    var wide, sort := Projection(0, false, c.items, true), Sort(0, [Lead()], None, None, 0);
    assert [wide, sort] + [] + [TrimOp(c)] == [wide, sort, TrimOp(c)];
  }

  lemma PlannedReturn(first: seq<LogicalOp>)
    requires |first| == 3
    ensures PlanClause(first, Some(2), AliasQuery()[2])
         == (first + [Projection(2, false, [Item(Variable(0), 2)], true), Sort(3, [Lead()], None, None, 0),
                      Projection(4, false, [Item(Variable(2), 2)], false)], 5)
  {
    ReturnOps();
    var ops := ClauseOps(NodeColumns());
    var a := Projection(2, false, [Item(Variable(0), 2)], true);
    var b := Sort(3, [Lead()], None, None, 0);
    var c := Projection(4, false, [Item(Variable(2), 2)], false);
    assert ops[1..][1..] == [ops[2]] && [ops[2]][1..] == [];
    assert PushAll(first, 2, ops) == PushAll(first + [a], 3, ops[1..]);
    assert PushAll(first + [a], 3, ops[1..]) == PushAll(first + [a] + [b], 4, [ops[2]]);
    assert PushAll(first + [a] + [b], 4, [ops[2]]) == PushAll(first + [a] + [b] + [c], 5, []);
    assert first + [a] + [b] + [c] == first + [a, b, c];
  }

  lemma PlanThree(
    cs: seq<QueryClause>, a: seq<LogicalOp>, i: nat, b: seq<LogicalOp>, j: nat, c: seq<LogicalOp>, k: nat)
    requires |cs| == 3
    requires PlanClause([], None, cs[0]) == (a, i) && PlanClause(a, Some(i), cs[1]) == (b, j)
    requires PlanClause(b, Some(j), cs[2]) == (c, k)
    ensures PlanClauses([], None, cs) == (c, k)
  {
    var two, one := cs[1..], cs[2..];
    assert two[1..] == one && one[1..] == [];
    assert PlanClauses(b, Some(j), one) == (c, k);
    assert PlanClauses(a, Some(i), two) == (c, k);
  }

  /** The planner plans the query so. */
  lemma AliasPlanned()
    ensures PlanClauses([], None, AliasQuery()) == (AliasPlan(), 5)
  {
    PlannedMatch();
    PlannedFive();
    PlannedLast();
    var cs := AliasQuery();
    PlanThree(cs, Started(), 0, Widened(), 2, AliasPlan(), 5);
  }

  function Started(): seq<LogicalOp> { [NodeScan(None, 0, [["L"]])] }

  function Widened(): seq<LogicalOp> {
    Started() + [Projection(0, false, [Item(Literal(Int(5)), 1)], true), Filter(1, AliasPred())]
  }

  lemma PlannedFive()
    ensures PlanClause(Started(), Some(0), AliasQuery()[1]) == (Widened(), 2)
  {
    PlannedWith(Started());
  }

  lemma PlannedLast()
    ensures PlanClause(Widened(), Some(2), AliasQuery()[2]) == (AliasPlan(), 5)
  {
    PlannedReturn(Widened());
    assert Widened() + [AliasPlan()[3], AliasPlan()[4], AliasPlan()[5]] == AliasPlan();
  }

  // ----- what the sort pass makes of it -----

  function AliasSeek(): LogicalOp {
    NodeSeek(None, 0, [["L"]],
             ByRange(Bounds("k", Some(Variable(1)), false, None, false, []), Some(Asc), Some(Last)))
  }

  function ServedPlan(): seq<LogicalOp> {
    [AliasSeek(), AliasPlan()[1], AliasPlan()[2], AliasPlan()[3], Projection(3, false, [], true), AliasPlan()[5]]
  }

  lemma AliasBounds(round: Rounding)
    ensures RangeOrNull(AliasPred(), 0, "k", round)
         == Some(Bounds("k", Some(Variable(1)), false, None, false, []))
  {
    var pred := AliasPred();
    var range, nulls := pred.lhs, pred.rhs;
    assert ConjunctsOf(pred) == [pred] && DisjunctsOf(pred) == [range, nulls];
    assert ConjunctsOf(range) == [range] && ConjunctsOf(nulls) == [nulls];
    assert nulls in ConjunctsOf(nulls) && IsNullTest(nulls, 0, "k");
    assert !IsNullTest(range, 0, "k");
    assert [range, nulls][1..] == [nulls] && [nulls][1..] == [];
    assert NotNullTests([nulls], 0, "k") == [];
    assert NotNullTests([range, nulls], 0, "k") == [range];
    var visit := Visit("k", Lower, Variable(1), false);
    assert VisitsOf(range, 0) == [visit];
    assert [visit][1..] == [] && OnKey([], "k") == [];
    assert OnKey([visit], "k") == [visit];
    assert AddAll(NoBounds("k"), [visit], round) == AddBound(NoBounds("k"), Lower, Variable(1), false, round);
  }

  lemma AliasDescends()
    ensures Topological(AliasPlan())
    ensures Descend(AliasPlan(), 3, Key(), []) == Some(Descent(0, Key(), [AliasPred()]))
  {
    var plan, key := AliasPlan(), Key();
    assert ResolveAlias(key, plan[1].items) == key && ResolveAlias(key, plan[3].items) == key;
    assert Descend(plan, 0, key, [AliasPred()]) == Some(Descent(0, key, [AliasPred()]));
    assert Descend(plan, 1, key, [AliasPred()]) == Some(Descent(0, key, [AliasPred()]));
    assert [] + [AliasPred()] == [AliasPred()];
    assert Descend(plan, 2, key, []) == Some(Descent(0, key, [AliasPred()]));
  }

  lemma AliasServed(catalog: Catalog, round: Rounding)
    requires catalog(RangeIndex, "L", "k")
    ensures OrderedScan(NodeScan(None, 0, [["L"]]), Key(), [AliasPred()], Lead(), catalog, round) == Some(AliasSeek())
  {
    AliasBounds(round);
  }

  /** The pass serves its sort from the index. */
  lemma AliasRewritten(catalog: Catalog, round: Rounding)
    requires catalog(RangeIndex, "L", "k")
    ensures Topological(AliasPlan()) && OrderAt(AliasPlan(), 4, catalog, round) == ServedPlan()
  {
    AliasDescends();
    AliasServed(catalog, round);
  }

  // ----- its rows, before and after -----

  function AliasGraph(): Graph { Graph([Some(NodeRecord({"L"}, map["k" := Int(6)]))], []) }

  function AliasExec(): Exec { SmallExec(AliasGraph(), [0], []) }

  function Scanned(): Row { map[0 := NodeRef(0)] }
  function Fives(): Row { map[0 := NodeRef(0), 1 := Int(5)] }
  function Wided(): Row { map[0 := NodeRef(0), 1 := Int(5), 2 := NodeRef(0)] }
  function Returned(): Row { map[2 := NodeRef(0)] }

  lemma AliasExecValid()
    ensures ExecValid(AliasExec())
  {
    var g := AliasGraph();
    forall id: nat ensures id in [0] <==> g.HasNode(id) {}
    SmallExecValid(g, [0], []);
  }

  lemma AliasScanned()
    ensures Step(AliasPlan()[0], map[], AliasExec()) == [Scanned()]
  {
    var x, scan, start: Row := AliasExec(), AliasPlan()[0], map[];
    assert ["L"][0] in {"L"};
    assert NodeFound(scan, 0, start, x.env);
    assert [0][1..] == [] && ScanRows(scan, [], start, x.env) == [];
    assert ScanRows(scan, [0], start, x.env) == [start[0 := NodeRef(0)]];
  }

  lemma AliasProjected()
    ensures Step(AliasPlan()[1], Scanned(), AliasExec()) == [Fives()]
    ensures Step(AliasPlan()[3], Fives(), AliasExec()) == [Wided()]
    ensures Step(AliasPlan()[5], Wided(), AliasExec()) == [Returned()]
  {
    var env, plan := AliasExec().env, AliasPlan();
    assert plan[1].items[1..] == [] && plan[3].items[1..] == [] && plan[5].items[1..] == [];
    assert Scanned()[1 := Int(5)] == Fives() && Fives()[2 := NodeRef(0)] == Wided();
    assert ProjectOver([], Fives(), env) == Fives() && ProjectOver([], Wided(), env) == Wided();
    assert ProjectOnto([], Wided(), Returned(), env) == Returned();
  }

  lemma AliasKept()
    ensures Step(AliasPlan()[2], Fives(), AliasExec()) == [Fives()]
  {
    var env, row, range := AliasExec().env, Fives(), AliasPred().lhs;
    assert Eval(Variable(0), row, env) == NodeRef(0) && Eval(Variable(1), row, env) == Int(5);
    assert Eval(Key(), row, env) == Int(6);
    assert Eval(range, row, env) == Bool(true);
  }

  lemma AliasSorted()
    ensures SortRows(AliasPlan()[4], [Wided()], AliasExec()) == [Wided()]
  {
    assert [Wided()][1..] == [];
    assert StableSort([Lead()], [], AliasExec().env, AliasExec().le) == [];
    assert StableSort([Lead()], [Wided()], AliasExec().env, AliasExec().le) == [Wided()];
  }

  /** A scan, four plain operators and a sort below the last, one over
      another. */
  predicate Stacked(nodes: seq<LogicalOp>) {
    && |nodes| == 6 && (nodes[0].NodeScan? || nodes[0].NodeSeek?) && nodes[0].source.None?
    && Plainly(nodes[1], 0) && Plainly(nodes[2], 1) && Plainly(nodes[3], 2) && Plainly(nodes[5], 4)
    && (Plainly(nodes[4], 3) || (nodes[4].Sort? && nodes[4].input == 3))
  }

  predicate Plainly(op: LogicalOp, input: nat) {
    (op.Filter? || (op.Projection? && !op.distinct)) && op.input == input
  }

  lemma StackedRows(nodes: seq<LogicalOp>, x: Exec, arg: Row)
    requires Stacked(nodes) && Topological(nodes)
    ensures var filtered := StepAll(nodes[2], StepAll(nodes[1], Step(nodes[0], arg, x), x), x);
      Denote(nodes, 5, x, arg) == StepAll(nodes[5], Apply(nodes[4], StepAll(nodes[3], filtered, x), x), x)
  {
    FilteredRows(nodes, x, arg);
    SortedRows(nodes, x, arg);
    OneAbove(nodes, 5, x, arg);
    assert Denote(nodes, 5, x, arg) == StepAll(nodes[5], Denote(nodes, 4, x, arg), x);
  }

  lemma SortedRows(nodes: seq<LogicalOp>, x: Exec, arg: Row)
    requires Topological(nodes) && |nodes| > 4 && Plainly(nodes[3], 2)
    requires Plainly(nodes[4], 3) || (nodes[4].Sort? && nodes[4].input == 3)
    ensures Denote(nodes, 4, x, arg) == Apply(nodes[4], StepAll(nodes[3], Denote(nodes, 2, x, arg), x), x)
  {
    OneAbove(nodes, 3, x, arg);
    OneAbove(nodes, 4, x, arg);
  }

  lemma FilteredRows(nodes: seq<LogicalOp>, x: Exec, arg: Row)
    requires Stacked(nodes) && Topological(nodes)
    ensures Denote(nodes, 2, x, arg) == StepAll(nodes[2], StepAll(nodes[1], Step(nodes[0], arg, x), x), x)
  {
    ScanRowsAt(nodes, x, arg);
    OneAbove(nodes, 1, x, arg);
    OneAbove(nodes, 2, x, arg);
    assert Denote(nodes, 2, x, arg) == StepAll(nodes[2], Denote(nodes, 1, x, arg), x);
  }

  lemma ScanRowsAt(nodes: seq<LogicalOp>, x: Exec, arg: Row)
    requires Topological(nodes) && nodes != [] && (nodes[0].NodeScan? || nodes[0].NodeSeek?) && nodes[0].source.None?
    ensures Denote(nodes, 0, x, arg) == Step(nodes[0], arg, x)
  {
    SingleStep(nodes[0], arg, x);
  }

  lemma OneAbove(nodes: seq<LogicalOp>, id: nat, x: Exec, arg: Row)
    requires Topological(nodes) && 0 < id < |nodes|
    requires Plainly(nodes[id], id - 1) || (nodes[id].Sort? && nodes[id].input == id - 1)
    ensures Denote(nodes, id, x, arg) == Apply(nodes[id], Denote(nodes, id - 1, x, arg), x)
    ensures Plainly(nodes[id], id - 1) ==>
      Apply(nodes[id], Denote(nodes, id - 1, x, arg), x) == StepAll(nodes[id], Denote(nodes, id - 1, x, arg), x)
  {
    assert Upstream(nodes[id]) == Some(id - 1);
    assert Plainly(nodes[id], id - 1) ==> RowWise(nodes[id]);
  }

  lemma AliasFound()
    ensures Topological(AliasPlan())
    ensures Denote(AliasPlan(), 5, AliasExec(), map[]) == [Returned()]
  {
    var plan, x := AliasPlan(), AliasExec();
    AliasDescends();
    AliasScanned();
    AliasProjected();
    AliasKept();
    AliasSorted();
    StackedRows(plan, x, map[]);
    SingleStep(plan[1], Scanned(), x);
    SingleStep(plan[2], Fives(), x);
    SingleStep(plan[3], Fives(), x);
    SingleStep(plan[5], Wided(), x);
  }

  lemma NothingSought()
    ensures Step(AliasSeek(), map[], AliasExec()) == []
  {
    var x, start: Row := AliasExec(), map[];
    assert Eval(Variable(1), start, x.env) == Null;
    NullBoundFinds(AliasSeek().access.bounds, Some(Asc), Last, 0, map["k" := Int(6)], start, x.env);
    assert !NodeFound(AliasSeek(), 0, start, x.env);
    assert [0][1..] == [] && ScanRows(AliasSeek(), [], start, x.env) == [];
  }

  lemma ServedTopological()
    ensures Topological(ServedPlan())
  {}

  lemma ServedFindsNothing()
    ensures Topological(ServedPlan()) && Denote(ServedPlan(), 5, AliasExec(), map[]) == []
  {
    ServedTopological();
    NothingSought();
    StackedRows(ServedPlan(), AliasExec(), map[]);
  }

  /** The query's plan has a row; served from the ordered scan it has none. */
  lemma AliasIsLost(catalog: Catalog, round: Rounding)
    requires catalog(RangeIndex, "L", "k")
    ensures PlanClauses([], None, AliasQuery()) == (AliasPlan(), 5)
    ensures ExecValid(AliasExec()) && Topological(AliasPlan()) && Topological(ServedPlan())
    ensures OrderAt(AliasPlan(), 4, catalog, round) == ServedPlan()
    ensures Denote(AliasPlan(), 5, AliasExec(), map[]) == [Returned()]
    ensures Denote(ServedPlan(), 5, AliasExec(), map[]) == []
  {
    AliasPlanned();
    AliasExecValid();
    AliasRewritten(catalog, round);
    AliasFound();
    ServedFindsNothing();
  }
}
