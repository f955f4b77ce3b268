/** Planning `items [ORDER BY] [SKIP] [LIMIT]` of a WITH or RETURN, and why the
    planned operators follow Cypher's clause order. */
module Clauses {
  import opened Values
  import opened Expressions
  import opened Sorting
  import opened Logical
  import opened Arena

  /** `lifted` are aggregate calls taken out of larger items or sort keys, as
      hidden columns. */
  datatype Clause = Clause(
    items: seq<Item>, lifted: seq<Item>, distinct: bool, includeExisting: bool,
    order: seq<SortKey>, skip: Option<Expr>, limit: Option<Expr>)

  predicate Aggregates(e: Expr)
    decreases e, 0
  {
    match e
    case Call(_, aggregate, _, args) => aggregate || AnyAggregates(args)
    case Property(base, _) => Aggregates(base)
    case Binary(l, _, r) => Aggregates(l) || Aggregates(r)
    case Unary(_, arg) => Aggregates(arg)
    case ListOf(items) => AnyAggregates(items)
    case MapOf(entries) => AnyEntryAggregates(entries)
    case Case(c, a, b) => Aggregates(c) || Aggregates(a) || Aggregates(b)
    case _ => false
  }

  predicate AnyAggregates(es: seq<Expr>)
    decreases es, 0
  {
    es != [] && (Aggregates(es[0]) || AnyAggregates(es[1..]))
  }

  predicate AnyEntryAggregates(es: seq<Entry>)
    decreases es, 0
  {
    es != [] && (Aggregates(es[0].value) || AnyEntryAggregates(es[1..]))
  }

  predicate ItemsAggregate(items: seq<Item>) {
    items != [] && (Aggregates(items[0].expr) || ItemsAggregate(items[1..]))
  }

  predicate Grouped(c: Clause) { c.lifted != [] || ItemsAggregate(c.items) }

  function Passthrough(items: seq<Item>): (out: seq<Item>)
    ensures |out| == |items|
  {
    if items == [] then []
    else [Item(Variable(items[0].output), items[0].output)] + Passthrough(items[1..])
  }

  // ----- sort keys -----

  function FindExpr(items: seq<Item>, e: Expr): Option<VarId> {
    if items == [] then None
    else if items[0].expr == e then Some(items[0].output)
    else FindExpr(items[1..], e)
  }

  /** A key that restates a projected expression reads its column. */
  function KeysOnOutputs(order: seq<SortKey>, items: seq<Item>): (out: seq<SortKey>)
    ensures |out| == |order|
  {
    if order == [] then []
    else
      var key := match FindExpr(items, order[0].expr)
        case Some(v) => order[0].(expr := Variable(v))
        case None => order[0];
      [key] + KeysOnOutputs(order[1..], items)
  }

  /** `v.k`, `v.k.j`, ... */
  predicate IsPropertyRead(e: Expr) {
    e.Property? && (e.base.Variable? || IsPropertyRead(e.base))
  }

  /** Only a property read is sure to have the same value again. */
  function KeysOnReads(order: seq<SortKey>, items: seq<Item>): (out: seq<SortKey>)
    ensures |out| == |order|
  {
    if order == [] then []
    else
      var found := if IsPropertyRead(order[0].expr) then FindExpr(items, order[0].expr) else None;
      var key := match found case Some(v) => order[0].(expr := Variable(v)) case None => order[0];
      [key] + KeysOnReads(order[1..], items)
  }

  function KeyVars(order: seq<SortKey>): set<VarId> {
    if order == [] then {} else Vars(order[0].expr) + KeyVars(order[1..])
  }

  // ----- grouping -----

  predicate ReadsLifted(item: Item, lifted: seq<Item>) { Vars(item.expr) * Outputs(lifted) != {} }

  function GroupKeys(items: seq<Item>, lifted: seq<Item>): seq<Item> {
    if items == [] then []
    else
      var rest := GroupKeys(items[1..], lifted);
      if ReadsLifted(items[0], lifted) || Aggregates(items[0].expr) then rest else [items[0]] + rest
  }

  function BareAggregates(items: seq<Item>, lifted: seq<Item>): seq<Item> {
    if items == [] then []
    else
      var rest := BareAggregates(items[1..], lifted);
      if !ReadsLifted(items[0], lifted) && Aggregates(items[0].expr) then [items[0]] + rest else rest
  }

  /** Items over the grouped row: those that read a lifted column evaluate,
      the rest re-emit their column. */
  function FinalItems(items: seq<Item>, lifted: seq<Item>): (out: seq<Item>)
    ensures |out| == |items|
  {
    if items == [] then []
    else
      [if ReadsLifted(items[0], lifted) then items[0] else Item(Variable(items[0].output), items[0].output)]
      + FinalItems(items[1..], lifted)
  }

  /** The hidden columns a sort key reads. */
  function KeptColumns(lifted: seq<Item>, used: set<VarId>): seq<Item> {
    if lifted == [] then []
    else
      var rest := KeptColumns(lifted[1..], used);
      if lifted[0].output in used then [lifted[0]] + rest else rest
  }

  function Kept(c: Clause): seq<Item> { KeptColumns(c.lifted, KeyVars(c.order)) }

  function GroupOp(c: Clause): LogicalOp {
    Aggregation(0, GroupKeys(c.items, c.lifted), BareAggregates(c.items, c.lifted) + c.lifted)
  }

  // ----- the operators, in the order they are pushed -----

  function LimitOps(c: Clause): seq<LogicalOp> {
    if c.skip.Some? || c.limit.Some? then [Limit(0, c.skip, c.limit)] else []
  }

  function SortOps(order: seq<SortKey>): seq<LogicalOp> {
    if order == [] then [] else [Sort(0, order, None, None, 0)]
  }

  function TrimOp(c: Clause): LogicalOp { Projection(0, false, Passthrough(c.items), false) }

  function ProjectionOps(c: Clause, kept: seq<Item>): seq<LogicalOp> {
    if c.lifted != [] then
      [GroupOp(c),
       Projection(0, c.distinct, FinalItems(c.items, c.lifted) + Passthrough(kept), false)]
    else if !ItemsAggregate(c.items) then [Projection(0, c.distinct, c.items, c.includeExisting)]
    else if c.distinct then [GroupOp(c), Projection(0, true, Passthrough(c.items), false)]
    else [GroupOp(c)]
  }

  function ClauseOps(c: Clause): seq<LogicalOp> {
    if Grouped(c) || c.distinct then
      ProjectionOps(c, Kept(c)) + SortOps(KeysOnOutputs(c.order, c.items)) + LimitOps(c)
      + (if Kept(c) == [] then [] else [TrimOp(c)])
    else if c.order == [] then LimitOps(c) + ProjectionOps(c, [])
    else
      [Projection(0, false, c.items, true), Sort(0, KeysOnReads(c.order, c.items), None, None, 0)]
      + LimitOps(c) + (if c.includeExisting then [] else [TrimOp(c)])
  }

  // ----- what is grouped by what -----

  /** `sub` is `e` or occurs in it, where the planner looks. */
  ghost predicate Occurs(sub: Expr, e: Expr)
    decreases e
  {
    sub == e ||
    match e
    case Call(_, _, _, args) => exists a | a in args :: Occurs(sub, a)
    case Property(base, _) => Occurs(sub, base)
    case Binary(l, _, r) => Occurs(sub, l) || Occurs(sub, r)
    case Unary(_, arg) => Occurs(sub, arg)
    case ListOf(items) => exists a | a in items :: Occurs(sub, a)
    case MapOf(entries) => exists n | n in entries :: Occurs(sub, n.value)
    case Case(c, a, b) => Occurs(sub, c) || Occurs(sub, a) || Occurs(sub, b)
    case _ => false
  }

  ghost predicate AggregateIn(sub: Expr, e: Expr) { sub.Call? && sub.aggregate && Occurs(sub, e) }

  /** An aggregate call, DISTINCT or not, occurs in the expression. */
  ghost predicate HoldsAggregate(e: Expr) { exists sub :: AggregateIn(sub, e) }

  lemma {:induction false} AggregateFound(e: Expr) returns (sub: Expr)
    requires Aggregates(e)
    ensures AggregateIn(sub, e)
    decreases e, 0
  {
    match e
    case Call(_, aggregate, _, args) =>
      if aggregate { sub := e; } else { var a; a, sub := AggregateAmong(args); }
    case Property(base, _) => sub := AggregateFound(base);
    case Binary(l, _, r) => if Aggregates(l) { sub := AggregateFound(l); } else { sub := AggregateFound(r); }
    case Unary(_, arg) => sub := AggregateFound(arg);
    case ListOf(items) => var a; a, sub := AggregateAmong(items);
    case MapOf(entries) => var n; n, sub := AggregateAmongEntries(entries);
    case Case(c, a, b) =>
      if Aggregates(c) { sub := AggregateFound(c); }
      else if Aggregates(a) { sub := AggregateFound(a); }
      else { sub := AggregateFound(b); }
  }

  lemma {:induction false} AggregateAmong(es: seq<Expr>) returns (e: Expr, sub: Expr)
    requires AnyAggregates(es)
    ensures e in es && AggregateIn(sub, e)
    decreases es, 0
  {
    if Aggregates(es[0]) { e := es[0]; sub := AggregateFound(e); } else { e, sub := AggregateAmong(es[1..]); }
  }

  lemma {:induction false} AggregateAmongEntries(es: seq<Entry>) returns (n: Entry, sub: Expr)
    requires AnyEntryAggregates(es)
    ensures n in es && AggregateIn(sub, n.value)
    decreases es, 0
  {
    if Aggregates(es[0].value) { n := es[0]; sub := AggregateFound(n.value); }
    else { n, sub := AggregateAmongEntries(es[1..]); }
  }

  lemma {:induction false} AggregateSeen(sub: Expr, e: Expr)
    requires AggregateIn(sub, e)
    ensures Aggregates(e)
    decreases e, 1
  {
    if sub == e { return; }
    match e
    case Call(_, _, _, args) => AggregateAmongSeen(sub, args);
    case Property(base, _) => AggregateSeen(sub, base);
    case Binary(l, _, r) => if Occurs(sub, l) { AggregateSeen(sub, l); } else { AggregateSeen(sub, r); }
    case Unary(_, arg) => AggregateSeen(sub, arg);
    case ListOf(items) => AggregateAmongSeen(sub, items);
    case MapOf(entries) => AggregateAmongEntriesSeen(sub, entries);
    case Case(c, a, b) =>
      if Occurs(sub, c) { AggregateSeen(sub, c); }
      else if Occurs(sub, a) { AggregateSeen(sub, a); }
      else { AggregateSeen(sub, b); }
  }

  lemma {:induction false} AggregateAmongSeen(sub: Expr, es: seq<Expr>)
    requires exists a | a in es :: AggregateIn(sub, a)
    ensures AnyAggregates(es)
    decreases es, 0
  {
    if AggregateIn(sub, es[0]) { AggregateSeen(sub, es[0]); } else { AggregateAmongSeen(sub, es[1..]); }
  }

  lemma {:induction false} AggregateAmongEntriesSeen(sub: Expr, es: seq<Entry>)
    requires exists n | n in es :: AggregateIn(sub, n.value)
    ensures AnyEntryAggregates(es)
    decreases es, 0
  {
    if AggregateIn(sub, es[0].value) { AggregateSeen(sub, es[0].value); }
    else { AggregateAmongEntriesSeen(sub, es[1..]); }
  }

  lemma AggregatesIff(e: Expr)
    ensures Aggregates(e) <==> HoldsAggregate(e)
  {
    if Aggregates(e) { var sub := AggregateFound(e); }
    if HoldsAggregate(e) { var sub :| AggregateIn(sub, e); AggregateSeen(sub, e); }
  }

  lemma {:induction false} ItemsAggregateIff(items: seq<Item>)
    ensures ItemsAggregate(items) <==> exists item | item in items :: HoldsAggregate(item.expr)
  {
    if items != [] {
      AggregatesIff(items[0].expr);
      ItemsAggregateIff(items[1..]);
    }
  }

  /** The item reads a column of `lifted`. */
  ghost predicate ReadsColumn(item: Item, lifted: seq<Item>) { exists l | l in lifted :: l.output in Vars(item.expr) }

  lemma {:induction false} ReadsLiftedIff(item: Item, lifted: seq<Item>)
    ensures ReadsLifted(item, lifted) <==> ReadsColumn(item, lifted)
  {
    OutputsAre(lifted);
    if ReadsLifted(item, lifted) {
      var v :| v in Vars(item.expr) * Outputs(lifted);
      var l :| l in lifted && l.output == v;
    }
    if ReadsColumn(item, lifted) {
      var l :| l in lifted && l.output in Vars(item.expr);
      assert l.output in Vars(item.expr) * Outputs(lifted);
    }
  }

  lemma {:induction false} OutputsAre(items: seq<Item>)
    ensures Outputs(items) == set item | item in items :: item.output
  {
    if items != [] { OutputsAre(items[1..]); }
  }

  lemma {:induction false} GroupCounts(items: seq<Item>, lifted: seq<Item>, item: Item)
    ensures multiset(GroupKeys(items, lifted))[item]
      == if HoldsAggregate(item.expr) || ReadsColumn(item, lifted) then 0 else multiset(items)[item]
    ensures multiset(BareAggregates(items, lifted))[item]
      == if HoldsAggregate(item.expr) && !ReadsColumn(item, lifted) then multiset(items)[item] else 0
  {
    if items != [] {
      assert items == [items[0]] + items[1..];
      AggregatesIff(items[0].expr);
      ReadsLiftedIff(items[0], lifted);
      GroupCounts(items[1..], lifted, item);
    }
  }

  /** A clause groups exactly when an item holds an aggregate call or columns
      were lifted out of its items, then by the items that hold none and read
      no lifted column; it aggregates those that hold one, and the lifted
      columns, each as often as given. */
  lemma GroupedBy(c: Clause, kept: seq<Item>, item: Item)
    ensures (exists op | op in ProjectionOps(c, kept) :: op.Aggregation?)
      <==> c.lifted != [] || exists i | i in c.items :: HoldsAggregate(i.expr)
    ensures forall op | op in ProjectionOps(c, kept) && op.Aggregation? ::
      && multiset(op.groupBy)[item]
         == (if HoldsAggregate(item.expr) || ReadsColumn(item, c.lifted) then 0 else multiset(c.items)[item])
      && multiset(op.aggregates)[item]
         == (if HoldsAggregate(item.expr) && !ReadsColumn(item, c.lifted) then multiset(c.items)[item] else 0)
            + multiset(c.lifted)[item]
  {
    ItemsAggregateIff(c.items);
    if c.lifted == [] && !ItemsAggregate(c.items) { return; }
    GroupCounts(c.items, c.lifted, item);
    assert ProjectionOps(c, kept)[0] == GroupOp(c);
  }

  // ----- pushing them onto the arena -----

  function WithInput(op: LogicalOp, id: nat): LogicalOp {
    if op.Projection? then Projection(id, op.distinct, op.items, op.includeExisting)
    else if op.Aggregation? then Aggregation(id, op.groupBy, op.aggregates)
    else if op.Sort? then Sort(id, op.keys, op.topK, op.bound, op.presorted)
    else if op.Limit? then Limit(id, op.skip, op.limit)
    else op
  }

  predicate ClauseOp(op: LogicalOp) { op.Projection? || op.Aggregation? || op.Sort? || op.Limit? }

  function PushAll(nodes: seq<LogicalOp>, input: nat, ops: seq<LogicalOp>): (r: (seq<LogicalOp>, nat))
    decreases |ops|
  {
    if ops == [] then (nodes, input)
    else PushAll(nodes + [WithInput(ops[0], input)], |nodes|, ops[1..])
  }

  function ApplyAll(ops: seq<LogicalOp>, rows: seq<Row>, x: Exec): seq<Row>
    decreases |ops|
  {
    if ops == [] then rows else ApplyAll(ops[1..], Apply(ops[0], rows, x), x)
  }

  lemma {:induction false} StepAllAnyInput(op: LogicalOp, id: nat, rows: seq<Row>, x: Exec)
    requires op.Projection?
    ensures StepAll(WithInput(op, id), rows, x) == StepAll(op, rows, x)
  {
    if rows != [] { StepAllAnyInput(op, id, rows[1..], x); }
  }

  lemma ApplyAnyInput(op: LogicalOp, id: nat, rows: seq<Row>, x: Exec)
    requires ClauseOp(op)
    ensures Apply(WithInput(op, id), rows, x) == Apply(op, rows, x)
  {
    if op.Projection? { StepAllAnyInput(op, id, rows, x); }
  }

  /** The pushed operators apply one after another to the rows of the input. */
  lemma {:induction false} PushAllDenotes(
    nodes: seq<LogicalOp>, input: nat, ops: seq<LogicalOp>, x: Exec, arg: Row)
    requires Topological(nodes) && input < |nodes|
    requires forall i | 0 <= i < |ops| :: ClauseOp(ops[i])
    ensures var (out, id) := PushAll(nodes, input, ops);
      Topological(out) && id < |out| && |nodes| <= |out| && out[..|nodes|] == nodes
      && Denote(out, id, x, arg) == ApplyAll(ops, Denote(nodes, input, x, arg), x)
    decreases |ops|
  {
    if ops != [] {
      var op := WithInput(ops[0], input);
      var next := nodes + [op];
      assert forall c | c in Inputs(op) :: c == input;
      DenotePush(nodes, op, x, arg);
      ApplyAnyInput(ops[0], input, Denote(nodes, input, x, arg), x);
      assert forall i | 0 <= i < |ops[1..]| :: ops[1..][i] == ops[i + 1];
      PushAllDenotes(next, |nodes|, ops[1..], x, arg);
      assert next[..|nodes|] == nodes;
    }
  }

  /** The planner as it runs. */
  class ClausePlanner {
    var nodes: seq<LogicalOp>

    constructor (nodes: seq<LogicalOp>)
      ensures this.nodes == nodes
    {
      this.nodes := nodes;
    }

    method Push(op: LogicalOp) returns (id: nat)
      modifies this
      ensures id == |old(nodes)| && nodes == old(nodes) + [op]
    {
      id := |nodes|;
      nodes := nodes + [op];
    }

    method PlanProjectionOrAggregation(input: nat, c: Clause, kept: seq<Item>) returns (node: nat)
      modifies this
      ensures (nodes, node) == PushAll(old(nodes), input, ProjectionOps(c, kept))
    {
      ghost var before := nodes;
      if c.lifted != [] {
        node := Push(WithInput(GroupOp(c), input));
        node := Push(Projection(node, c.distinct, FinalItems(c.items, c.lifted) + Passthrough(kept), false));
      } else if !ItemsAggregate(c.items) {
        node := Push(Projection(input, c.distinct, c.items, c.includeExisting));
      } else {
        node := Push(WithInput(GroupOp(c), input));
        if c.distinct { node := Push(Projection(node, true, Passthrough(c.items), false)); }
      }
      PushOneTwo(before, input, ProjectionOps(c, kept));
    }

    method PlanProjectionSortLimit(input: nat, c: Clause) returns (node: nat)
      modifies this
      ensures (nodes, node) == PushAll(old(nodes), input, ClauseOps(c))
    {
      ghost var before := nodes;
      if Grouped(c) || c.distinct {
        var kept := Kept(c);
        node := PlanProjectionOrAggregation(input, c, kept);
        ghost var ops := ProjectionOps(c, kept);
        var keys := KeysOnOutputs(c.order, c.items);
        node := PushOps(before, input, ops, node, SortOps(keys));
        node := PushOps(before, input, ops + SortOps(keys), node, LimitOps(c));
        node := PushOps(before, input, ops + SortOps(keys) + LimitOps(c), node,
                        if kept == [] then [] else [TrimOp(c)]);
      } else if c.order == [] {
        PushNone(before, input);
        node := PushOps(before, input, [], input, LimitOps(c));
        assert [] + LimitOps(c) == LimitOps(c);
        ghost var middle, at := nodes, node;
        node := PlanProjectionOrAggregation(node, c, []);
        PushAllConcat(before, input, LimitOps(c), ProjectionOps(c, []));
      } else {
        ghost var first := [Projection(0, false, c.items, true)];
        ghost var sort := [Sort(0, KeysOnReads(c.order, c.items), None, None, 0)];
        PushNone(before, input);
        node := PushOps(before, input, [], input, [Projection(0, false, c.items, true)]);
        node := PushOps(before, input, [] + first, node, [Sort(0, KeysOnReads(c.order, c.items), None, None, 0)]);
        node := PushOps(before, input, [] + first + sort, node, LimitOps(c));
        node := PushOps(before, input, [] + first + sort + LimitOps(c), node,
                        if c.includeExisting then [] else [TrimOp(c)]);
        assert [] + first + sort == first + sort;
        assert ClauseOps(c) == first + sort + LimitOps(c) + (if c.includeExisting then [] else [TrimOp(c)]);
      }
    }

    /** Pushes `ops`, at most one, after `done`. */
    method PushOps(
      ghost before: seq<LogicalOp>, ghost input: nat, ghost done: seq<LogicalOp>, at: nat, ops: seq<LogicalOp>)
      returns (node: nat)
      requires |ops| <= 1 && (nodes, at) == PushAll(before, input, done)
      modifies this
      ensures (nodes, node) == PushAll(before, input, done + ops)
    {
      PushAllConcat(before, input, done, ops);
      if ops == [] {
        node := at;
      } else {
        assert ops[1..] == [];
        node := Push(WithInput(ops[0], at));
      }
    }
  }

  lemma PushOneTwo(nodes: seq<LogicalOp>, input: nat, ops: seq<LogicalOp>)
    ensures |ops| == 1 ==> PushAll(nodes, input, ops) == (nodes + [WithInput(ops[0], input)], |nodes|)
    ensures |ops| == 2 ==>
      (var first := nodes + [WithInput(ops[0], input)];
       PushAll(nodes, input, ops) == (first + [WithInput(ops[1], |nodes|)], |nodes| + 1))
  {
    if |ops| == 1 { assert ops[1..] == []; }
    if |ops| == 2 {
      var first := nodes + [WithInput(ops[0], input)];
      assert ops[1..] == [ops[1]] && [ops[1]][1..] == [];
      assert PushAll(first, |nodes|, [ops[1]]) == (first + [WithInput(ops[1], |nodes|)], |first|);
    }
  }

  lemma PushNone(nodes: seq<LogicalOp>, input: nat)
    ensures PushAll(nodes, input, []) == (nodes, input)
  {}

  lemma {:induction false} PushAllConcat(nodes: seq<LogicalOp>, input: nat, a: seq<LogicalOp>, b: seq<LogicalOp>)
    ensures PushAll(nodes, input, a + b)
         == PushAll(PushAll(nodes, input, a).0, PushAll(nodes, input, a).1, b)
    decreases |a|
  {
    if a == [] {
      assert a + b == b;
    } else {
      assert (a + b)[1..] == a[1..] + b;
      PushAllConcat(nodes + [WithInput(a[0], input)], |nodes|, a[1..], b);
    }
  }

  // ====================
  // Cypher's clause order, said without operators, and why the planned operators follow
  // it.

  // ----- the meaning of a clause -----

  function MapRows(f: Row -> Row, rows: seq<Row>): (out: seq<Row>)
    ensures |out| == |rows|
  {
    if rows == [] then [] else [f(rows[0])] + MapRows(f, rows[1..])
  }

  /** Only the columns of `vars`. */
  function Only(vars: set<VarId>): Row -> Row { (row: Row) => map v | v in vars && v in row :: row[v] }

  function Same(): Row -> Row { (row: Row) => row }

  function Columns(items: seq<Item>, row: Row, env: Env): Row { ProjectOnto(items, row, map[], env) }

  /** The row with its projected columns beside its own bindings. */
  function Wide(items: seq<Item>, env: Env): Row -> Row { (row: Row) => row + Columns(items, row, env) }

  function Narrow(items: seq<Item>, env: Env): Row -> Row { (row: Row) => Columns(items, row, env) }

  function Shown(c: Clause, env: Env): Row -> Row {
    if c.includeExisting then Wide(c.items, env) else Narrow(c.items, env)
  }

  function Trim(c: Clause): Row -> Row { if c.includeExisting then Same() else Only(Outputs(c.items)) }

  function Groups(c: Clause, rows: seq<Row>, x: Exec): seq<Row> {
    x.group(GroupKeys(c.items, c.lifted), BareAggregates(c.items, c.lifted) + c.lifted, rows)
  }

  function SortAndLimit(c: Clause, keys: seq<SortKey>, rows: seq<Row>, x: Exec): seq<Row> {
    LimitRows(StableSort(keys, rows, x.env, x.le), c.skip, c.limit, x.env)
  }

  /** Project, with grouping and DISTINCT; then sort, with keys over aliases
      and what the row binds; then SKIP and LIMIT; then only the projected
      columns. */
  function Cypher(c: Clause, rows: seq<Row>, x: Exec): seq<Row> {
    if !Grouped(c) && !c.distinct then
      MapRows(Trim(c), SortAndLimit(c, c.order, MapRows(Wide(c.items, x.env), rows), x))
    else if !Grouped(c) then
      SortAndLimit(c, KeysOnOutputs(c.order, c.items), Dedup(MapRows(Shown(c, x.env), rows), {}), x)
    else
      var final := FinalItems(c.items, c.lifted);
      var keys := KeysOnOutputs(c.order, c.items);
      if c.distinct then
        SortAndLimit(c, keys, Dedup(MapRows(Narrow(final, x.env), Groups(c, rows, x)), {}), x)
      else
        MapRows(Only(Outputs(c.items)),
                SortAndLimit(c, keys, MapRows(Wide(final, x.env), Groups(c, rows, x)), x))
  }

  // ----- mapping rows -----

  lemma {:induction false} MapRowsAt(f: Row -> Row, rows: seq<Row>, i: nat)
    requires i < |rows|
    ensures MapRows(f, rows)[i] == f(rows[i])
  {
    if i > 0 { MapRowsAt(f, rows[1..], i - 1); }
  }

  lemma {:induction false} MapSame(f: Row -> Row, g: Row -> Row, rows: seq<Row>)
    requires forall r | r in rows :: f(r) == g(r)
    ensures MapRows(f, rows) == MapRows(g, rows)
  {
    if rows != [] { MapSame(f, g, rows[1..]); }
  }

  lemma {:induction false} MapIdentity(f: Row -> Row, rows: seq<Row>)
    requires forall r | r in rows :: f(r) == r
    ensures MapRows(f, rows) == rows
  {
    if rows != [] { MapIdentity(f, rows[1..]); }
  }

  lemma {:induction false} MapTwice(f: Row -> Row, g: Row -> Row, h: Row -> Row, rows: seq<Row>)
    requires forall r | r in rows :: g(f(r)) == h(r)
    ensures MapRows(g, MapRows(f, rows)) == MapRows(h, rows)
  {
    if rows != [] { MapTwice(f, g, h, rows[1..]); }
  }

  /** SKIP and LIMIT count rows; they do not look at them. */
  lemma MapLimit(f: Row -> Row, rows: seq<Row>, skip: Option<Expr>, limit: Option<Expr>, env: Env)
    ensures MapRows(f, LimitRows(rows, skip, limit, env)) == LimitRows(MapRows(f, rows), skip, limit, env)
  {
    var n := if skip.Some? then Count(skip.value, env) else 0;
    MapDrop(f, rows, n);
    if limit.Some? { MapTake(f, Drop(rows, n), Count(limit.value, env)); }
  }

  lemma MapDrop(f: Row -> Row, rows: seq<Row>, n: nat)
    ensures MapRows(f, Drop(rows, n)) == Drop(MapRows(f, rows), n)
  {
    forall i | 0 <= i < |Drop(rows, n)| ensures MapRows(f, Drop(rows, n))[i] == Drop(MapRows(f, rows), n)[i] {
      MapRowsAt(f, Drop(rows, n), i);
      MapRowsAt(f, rows, n + i);
    }
  }

  lemma MapTake(f: Row -> Row, rows: seq<Row>, n: nat)
    ensures MapRows(f, Take(rows, n)) == Take(MapRows(f, rows), n)
  {
    forall i | 0 <= i < |Take(rows, n)| ensures MapRows(f, Take(rows, n))[i] == Take(MapRows(f, rows), n)[i] {
      MapRowsAt(f, Take(rows, n), i);
      MapRowsAt(f, rows, i);
    }
  }

  /** A sort commutes with a map its keys do not see through. */
  lemma {:induction false} MapInsert(
    f: Row -> Row, a: seq<SortKey>, b: seq<SortKey>, row: Row, rows: seq<Row>, env: Env, le: Rank)
    requires forall r | r in rows :: NotAfter(a, f(row), f(r), env, le) == NotAfter(b, row, r, env, le)
    ensures Insert(a, f(row), MapRows(f, rows), env, le) == MapRows(f, Insert(b, row, rows, env, le))
  {
    if rows != [] {
      assert rows[0] in rows;
      if NotAfter(b, row, rows[0], env, le) {
        assert ([row] + rows)[1..] == rows;
      } else {
        var rest := Insert(b, row, rows[1..], env, le);
        MapInsert(f, a, b, row, rows[1..], env, le);
        assert ([rows[0]] + rest)[1..] == rest;
        assert MapRows(f, rows)[1..] == MapRows(f, rows[1..]);
      }
    }
  }

  lemma {:induction false} MapSort(
    f: Row -> Row, a: seq<SortKey>, b: seq<SortKey>, rows: seq<Row>, env: Env, le: Rank)
    requires forall r, s | r in rows && s in rows ::
      NotAfter(a, f(r), f(s), env, le) == NotAfter(b, r, s, env, le)
    ensures StableSort(a, MapRows(f, rows), env, le) == MapRows(f, StableSort(b, rows, env, le))
  {
    if rows != [] {
      var tail := StableSort(b, rows[1..], env, le);
      MapSort(f, a, b, rows[1..], env, le);
      SortKeeps(b, rows[1..], env, le);
      forall r | r in tail ensures NotAfter(a, f(rows[0]), f(r), env, le) == NotAfter(b, rows[0], r, env, le) {
        assert r in multiset(tail);
        assert r in rows[1..];
      }
      MapInsert(f, a, b, rows[0], tail, env, le);
    }
  }

  lemma {:induction false} NoKeysNoSort(rows: seq<Row>, env: Env, le: Rank)
    ensures StableSort([], rows, env, le) == rows
  {
    if rows != [] { NoKeysNoSort(rows[1..], env, le); }
  }

  // ----- single projections -----

  lemma {:induction false} ProjectionMaps(
    input: nat, distinct: bool, items: seq<Item>, keep: bool, f: Row -> Row, rows: seq<Row>, x: Exec)
    requires forall r | r in rows :: ProjectRow(items, keep, r, x.env) == f(r)
    ensures StepAll(Projection(input, distinct, items, keep), rows, x) == MapRows(f, rows)
  {
    if rows != [] { ProjectionMaps(input, distinct, items, keep, f, rows[1..], x); }
  }

  function ItemVars(items: seq<Item>): set<VarId> {
    if items == [] then {} else Vars(items[0].expr) + ItemVars(items[1..])
  }

  /** An output is a new variable, or passes one on that the row binds. */
  ghost predicate FreshItems(items: seq<Item>, used: set<VarId>) {
    forall item | item in items :: item.expr == Variable(item.output) || item.output !in used
  }

  ghost predicate PassedBound(items: seq<Item>, rows: seq<Row>) {
    forall item, row | item in items && row in rows && item.expr == Variable(item.output) :: item.output in row
  }

  /** While items are computed one over another, what they read stays. */
  lemma {:induction false} OverIsWide(items: seq<Item>, row: Row, now: Row, out: Row, used: set<VarId>, env: Env)
    requires FreshItems(items, used) && ItemVars(items) <= used
    requires forall item | item in items && item.expr == Variable(item.output) :: item.output in row
    requires SameOn(row, now, used) && now == row + out
    ensures ProjectOver(items, now, env) == row + ProjectOnto(items, row, out, env)
    decreases |items|
  {
    if items != [] {
      var item := items[0];
      assert item in items;
      FreeWithinVars(item.expr);
      Coincidence(item.expr, row, now, env);
      var value := Eval(item.expr, row, env);
      var now', out' := now[item.output := value], out[item.output := value];
      assert now' == row + out';
      OverIsWide(items[1..], row, now', out', used, env);
    }
  }

  lemma WideRow(items: seq<Item>, row: Row, env: Env)
    requires FreshItems(items, ItemVars(items))
    requires forall item | item in items && item.expr == Variable(item.output) :: item.output in row
    ensures ProjectRow(items, true, row, env) == Wide(items, env)(row)
  {
    OverIsWide(items, row, row, map[], ItemVars(items), env);
  }

  /** Columns of the wide row. */
  lemma ColumnKeys(items: seq<Item>, row: Row, env: Env)
    ensures Columns(items, row, env).Keys == Outputs(items)
  {
    ProjectOntoKeys(items, row, map[], env);
  }

  lemma {:induction false} OutputsOfPassthrough(items: seq<Item>)
    ensures Outputs(Passthrough(items)) == Outputs(items)
  {
    if items != [] { OutputsOfPassthrough(items[1..]); }
  }

  lemma {:induction false} PassthroughOnto(items: seq<Item>, row: Row, out: Row, env: Env)
    requires Outputs(items) <= row.Keys
    ensures ProjectOnto(Passthrough(items), row, out, env)
         == out + (map v | v in Outputs(items) :: Lookup(row, v))
    decreases |items|
  {
    if items != [] {
      var v := items[0].output;
      assert Passthrough(items)[1..] == Passthrough(items[1..]);
      PassthroughOnto(items[1..], row, out[v := Lookup(row, v)], env);
    } else {
      assert out + (map v | v in Outputs(items) :: Lookup(row, v)) == out;
    }
  }

  /** Re-emitting the outputs keeps just those columns. */
  lemma PassthroughTrims(items: seq<Item>, row: Row, env: Env)
    requires Outputs(items) <= row.Keys
    ensures ProjectRow(Passthrough(items), false, row, env) == Only(Outputs(items))(row)
  {
    PassthroughOnto(items, row, map[], env);
  }

  // ====================
  // The planned operators of a clause yield its rows in Cypher's order.

  /** Grouping yields the columns it is asked for. */
  ghost predicate GroupColumns(x: Exec) {
    forall keys, aggregates, rows, g | g in x.group(keys, aggregates, rows) ::
      g.Keys == Outputs(keys) + Outputs(aggregates)
  }

  /** Outputs are distinct, and new unless they pass a bound variable on;
      hidden columns are apart from them, and none is kept under DISTINCT. */
  ghost predicate ClauseFits(c: Clause, rows: seq<Row>) {
    && DistinctOutputs(c.items) && FreshItems(c.items, ItemVars(c.items)) && PassedBound(c.items, rows)
    && Outputs(c.lifted) !! Outputs(c.items)
    && (c.distinct ==> Kept(c) == [])
  }

  // ----- the shared tail -----

  lemma {:induction false} ApplyConcat(a: seq<LogicalOp>, b: seq<LogicalOp>, rows: seq<Row>, x: Exec)
    ensures ApplyAll(a + b, rows, x) == ApplyAll(b, ApplyAll(a, rows, x), x)
    decreases |a|
  {
    if a == [] {
      assert a + b == b;
    } else {
      assert (a + b)[1..] == a[1..] + b;
      ApplyConcat(a[1..], b, Apply(a[0], rows, x), x);
    }
  }

  lemma ApplyOne(op: LogicalOp, rows: seq<Row>, x: Exec)
    ensures ApplyAll([op], rows, x) == Apply(op, rows, x) && ApplyAll([], rows, x) == rows
  {
    assert [op][1..] == [];
  }

  lemma LimitOpsApply(c: Clause, rows: seq<Row>, x: Exec)
    ensures ApplyAll(LimitOps(c), rows, x) == LimitRows(rows, c.skip, c.limit, x.env)
  {
    ApplyOne(Limit(0, c.skip, c.limit), rows, x);
  }

  lemma SortLimitApply(c: Clause, keys: seq<SortKey>, rows: seq<Row>, x: Exec)
    ensures ApplyAll(SortOps(keys) + LimitOps(c), rows, x) == SortAndLimit(c, keys, rows, x)
  {
    ApplyConcat(SortOps(keys), LimitOps(c), rows, x);
    NoKeysNoSort(rows, x.env, x.le);
    ApplyOne(Sort(0, keys, None, None, 0), rows, x);
    LimitOpsApply(c, StableSort(keys, rows, x.env, x.le), x);
  }

  lemma LimitWithin(c: Clause, keys: seq<SortKey>, rows: seq<Row>, x: Exec)
    ensures forall r | r in SortAndLimit(c, keys, rows, x) :: r in rows
  {
    var sorted := StableSort(keys, rows, x.env, x.le);
    SortKeeps(keys, rows, x.env, x.le);
    forall r | r in SortAndLimit(c, keys, rows, x) ensures r in rows {
      assert r in sorted;
      assert r in multiset(sorted);
    }
  }

  lemma TrimApplies(c: Clause, rows: seq<Row>, x: Exec)
    requires forall r | r in rows :: Outputs(c.items) <= r.Keys
    ensures Apply(TrimOp(c), rows, x) == MapRows(Only(Outputs(c.items)), rows)
  {
    forall r | r in rows ensures ProjectRow(Passthrough(c.items), false, r, x.env) == Only(Outputs(c.items))(r) {
      PassthroughTrims(c.items, r, x.env);
    }
    ProjectionMaps(0, false, Passthrough(c.items), false, Only(Outputs(c.items)), rows, x);
  }

  lemma {:induction false} MapMember(f: Row -> Row, rows: seq<Row>, out: Row) returns (r: Row)
    requires out in MapRows(f, rows)
    ensures r in rows && f(r) == out
  {
    if f(rows[0]) == out { r := rows[0]; } else { r := MapMember(f, rows[1..], out); }
  }

  lemma SameSort(a: seq<SortKey>, b: seq<SortKey>, rows: seq<Row>, env: Env, le: Rank)
    requires forall r, s | r in rows && s in rows :: NotAfter(a, r, s, env, le) == NotAfter(b, r, s, env, le)
    ensures StableSort(a, rows, env, le) == StableSort(b, rows, env, le)
  {
    MapIdentity(Same(), rows);
    MapSort(Same(), a, b, rows, env, le);
    MapIdentity(Same(), StableSort(b, rows, env, le));
  }

  // ----- plain projections -----

  lemma WideApplies(c: Clause, distinct: bool, rows: seq<Row>, x: Exec)
    requires ClauseFits(c, rows)
    ensures StepAll(Projection(0, distinct, c.items, true), rows, x) == MapRows(Wide(c.items, x.env), rows)
  {
    forall r | r in rows ensures ProjectRow(c.items, true, r, x.env) == Wide(c.items, x.env)(r) {
      WideRow(c.items, r, x.env);
    }
    ProjectionMaps(0, distinct, c.items, true, Wide(c.items, x.env), rows, x);
  }

  lemma ShownApplies(c: Clause, distinct: bool, rows: seq<Row>, x: Exec)
    requires ClauseFits(c, rows)
    ensures StepAll(Projection(0, distinct, c.items, c.includeExisting), rows, x) == MapRows(Shown(c, x.env), rows)
  {
    if c.includeExisting {
      WideApplies(c, distinct, rows, x);
    } else {
      ProjectionMaps(0, distinct, c.items, false, Narrow(c.items, x.env), rows, x);
    }
  }

  lemma TrimOfWide(c: Clause, row: Row, env: Env)
    ensures Trim(c)(Wide(c.items, env)(row)) == Shown(c, env)(row)
  {
    ColumnKeys(c.items, row, env);
  }

  /** Without ORDER BY: limiting first, then projecting. */
  lemma UnorderedClause(c: Clause, rows: seq<Row>, x: Exec)
    requires ClauseFits(c, rows) && !Grouped(c) && !c.distinct && c.order == []
    ensures ApplyAll(ClauseOps(c), rows, x) == Cypher(c, rows, x)
  {
    var kept := LimitRows(rows, c.skip, c.limit, x.env);
    ApplyConcat(LimitOps(c), ProjectionOps(c, []), rows, x);
    LimitOpsApply(c, rows, x);
    ApplyOne(Projection(0, false, c.items, c.includeExisting), kept, x);
    assert forall r | r in kept :: r in rows;
    ShownApplies(c, false, kept, x);
    MapLimit(Shown(c, x.env), rows, c.skip, c.limit, x.env);
    var wide := MapRows(Wide(c.items, x.env), rows);
    NoKeysNoSort(wide, x.env, x.le);
    MapLimit(Trim(c), wide, c.skip, c.limit, x.env);
    forall r | r in rows ensures Trim(c)(Wide(c.items, x.env)(r)) == Shown(c, x.env)(r) {
      TrimOfWide(c, r, x.env);
    }
    MapTwice(Wide(c.items, x.env), Trim(c), Shown(c, x.env), rows);
  }

  lemma {:induction false} FoundItem(items: seq<Item>, e: Expr) returns (item: Item)
    requires FindExpr(items, e).Some?
    ensures item in items && item.expr == e && FindExpr(items, e) == Some(item.output)
  {
    if items[0].expr == e { item := items[0]; } else { item := FoundItem(items[1..], e); }
  }

  lemma {:induction false} ItemFirst(items: seq<Item>, item: Item)
    requires DistinctOutputs(items) && item in items
    ensures FirstItem(items, item.output) == Some(item.expr) && item.output in Outputs(items)
  {
    if items[0] != item {
      ItemFirst(items[1..], item);
    }
  }

  lemma {:induction false} ItemVarsHold(items: seq<Item>, item: Item)
    requires item in items
    ensures Vars(item.expr) <= ItemVars(items)
  {
    if items[0] != item { ItemVarsHold(items[1..], item); }
  }

  /** What items read is the same in the wide row. */
  lemma WideSame(c: Clause, row: Row, env: Env)
    requires DistinctOutputs(c.items) && FreshItems(c.items, ItemVars(c.items))
    requires forall item | item in c.items && item.expr == Variable(item.output) :: item.output in row
    ensures SameOn(row, Wide(c.items, env)(row), ItemVars(c.items))
  {
    ColumnKeys(c.items, row, env);
    var w := Wide(c.items, env)(row);
    forall v | v in ItemVars(c.items)
      ensures (v in row <==> v in w) && (v in row ==> row[v] == w[v])
    {
      if v in Outputs(c.items) {
        OntoOutput(c.items, row, map[], v, env);
        var item := OutputItem(c.items, v);
        assert item.expr == Variable(item.output);
        ItemFirst(c.items, item);
      }
    }
  }

  lemma {:induction false} OutputItem(items: seq<Item>, v: VarId) returns (item: Item)
    requires v in Outputs(items)
    ensures item in items && item.output == v
  {
    if items[0].output == v { item := items[0]; } else { item := OutputItem(items[1..], v); }
  }

  /** A redirected key reads what it restates. */
  lemma RedirectedRead(c: Clause, e: Expr, row: Row, env: Env)
    requires DistinctOutputs(c.items) && FreshItems(c.items, ItemVars(c.items)) && FindExpr(c.items, e).Some?
    requires forall item | item in c.items && item.expr == Variable(item.output) :: item.output in row
    ensures var w := Wide(c.items, env)(row);
      Eval(Variable(FindExpr(c.items, e).value), w, env) == Eval(e, w, env)
  {
    var w := Wide(c.items, env)(row);
    var item := FoundItem(c.items, e);
    ItemFirst(c.items, item);
    OntoOutput(c.items, row, map[], item.output, env);
    ColumnKeys(c.items, row, env);
    ItemVarsHold(c.items, item);
    WideSame(c, row, env);
    FreeWithinVars(e);
    Coincidence(e, row, w, env);
  }

  lemma {:induction false} ReadsCompare(c: Clause, order: seq<SortKey>, a: Row, b: Row, env: Env, le: Rank)
    requires DistinctOutputs(c.items) && FreshItems(c.items, ItemVars(c.items))
    requires forall item | item in c.items && item.expr == Variable(item.output) ::
      item.output in a && item.output in b
    ensures var w, v := Wide(c.items, env)(a), Wide(c.items, env)(b);
      NotAfter(KeysOnReads(order, c.items), w, v, env, le) == NotAfter(order, w, v, env, le)
  {
    if order != [] {
      ReadsCompare(c, order[1..], a, b, env, le);
      var e := order[0].expr;
      if FindExpr(c.items, e).Some? {
        RedirectedRead(c, e, a, env);
        RedirectedRead(c, e, b, env);
      }
      assert KeysOnReads(order, c.items)[1..] == KeysOnReads(order[1..], c.items);
    }
  }

  lemma ReadsSort(c: Clause, rows: seq<Row>, x: Exec)
    requires ClauseFits(c, rows)
    ensures var wide := MapRows(Wide(c.items, x.env), rows);
      StableSort(KeysOnReads(c.order, c.items), wide, x.env, x.le) == StableSort(c.order, wide, x.env, x.le)
  {
    var wide := MapRows(Wide(c.items, x.env), rows);
    var keys := KeysOnReads(c.order, c.items);
    forall r, s | r in wide && s in wide
      ensures NotAfter(keys, r, s, x.env, x.le) == NotAfter(c.order, r, s, x.env, x.le)
    {
      var a := MapMember(Wide(c.items, x.env), rows, r);
      var b := MapMember(Wide(c.items, x.env), rows, s);
      ReadsCompare(c, c.order, a, b, x.env, x.le);
    }
    SameSort(keys, c.order, wide, x.env, x.le);
  }

  /** With ORDER BY: project beside the bindings, sort, limit, trim. */
  lemma OrderedClause(c: Clause, rows: seq<Row>, x: Exec)
    requires ClauseFits(c, rows) && !Grouped(c) && !c.distinct && c.order != []
    ensures ApplyAll(ClauseOps(c), rows, x) == Cypher(c, rows, x)
  {
    var wide, keys := MapRows(Wide(c.items, x.env), rows), KeysOnReads(c.order, c.items);
    var trim := if c.includeExisting then [] else [TrimOp(c)];
    var first, sort := Projection(0, false, c.items, true), Sort(0, keys, None, None, 0);
    assert [first, sort] + LimitOps(c) + trim == [first] + (SortOps(keys) + LimitOps(c)) + trim;
    ApplyConcat([first] + (SortOps(keys) + LimitOps(c)), trim, rows, x);
    ApplyConcat([first], SortOps(keys) + LimitOps(c), rows, x);
    ApplyOne(first, rows, x);
    WideApplies(c, false, rows, x);
    SortLimitApply(c, keys, wide, x);
    ReadsSort(c, rows, x);
    var done := SortAndLimit(c, c.order, wide, x);
    assert SortAndLimit(c, keys, wide, x) == done;
    if c.includeExisting {
      ApplyOne(first, done, x);
      MapIdentity(Same(), done);
    } else {
      LimitWithin(c, c.order, wide, x);
      forall r | r in done ensures Outputs(c.items) <= r.Keys {
        var a := MapMember(Wide(c.items, x.env), rows, r);
        ColumnKeys(c.items, a, x.env);
      }
      ApplyOne(TrimOp(c), done, x);
      TrimApplies(c, done, x);
    }
  }

  // ----- DISTINCT and grouping -----

  lemma TailApplies(c: Clause, kept: seq<Item>, rows: seq<Row>, x: Exec)
    ensures var base := ApplyAll(ProjectionOps(c, kept), rows, x);
      var keys := KeysOnOutputs(c.order, c.items);
      ApplyAll(ProjectionOps(c, kept) + SortOps(keys) + LimitOps(c), rows, x) == SortAndLimit(c, keys, base, x)
  {
    var keys := KeysOnOutputs(c.order, c.items);
    var ops := ProjectionOps(c, kept);
    assert ops + SortOps(keys) + LimitOps(c) == ops + (SortOps(keys) + LimitOps(c));
    ApplyConcat(ops, SortOps(keys) + LimitOps(c), rows, x);
    SortLimitApply(c, keys, ApplyAll(ops, rows, x), x);
  }

  lemma NoneKept(c: Clause)
    requires c.lifted == []
    ensures Kept(c) == []
  {}

  lemma {:induction false} FinalIsPassthrough(items: seq<Item>)
    ensures FinalItems(items, []) == Passthrough(items)
  {
    if items != [] { FinalIsPassthrough(items[1..]); }
  }

  lemma PlainDistinct(c: Clause, rows: seq<Row>, x: Exec)
    requires ClauseFits(c, rows) && c.distinct && !Grouped(c)
    ensures ApplyAll(ProjectionOps(c, []), rows, x) == Dedup(MapRows(Shown(c, x.env), rows), {})
  {
    ApplyOne(ProjectionOps(c, [])[0], rows, x);
    ShownApplies(c, true, rows, x);
  }

  lemma GroupedDistinct(c: Clause, rows: seq<Row>, x: Exec)
    requires c.distinct && Grouped(c)
    ensures ApplyAll(ProjectionOps(c, []), rows, x)
         == Dedup(MapRows(Narrow(FinalItems(c.items, c.lifted), x.env), Groups(c, rows, x)), {})
  {
    var final, groups := FinalItems(c.items, c.lifted), Groups(c, rows, x);
    var last := Projection(0, true, final, false);
    if c.lifted == [] { FinalIsPassthrough(c.items); }
    assert final + Passthrough([]) == final;
    assert ProjectionOps(c, []) == [GroupOp(c)] + [last];
    ApplyConcat([GroupOp(c)], [last], rows, x);
    ApplyOne(GroupOp(c), rows, x);
    ApplyOne(last, groups, x);
    ProjectionMaps(0, true, final, false, Narrow(final, x.env), groups, x);
  }

  lemma DistinctClause(c: Clause, rows: seq<Row>, x: Exec)
    requires ClauseFits(c, rows) && c.distinct
    ensures ApplyAll(ClauseOps(c), rows, x) == Cypher(c, rows, x)
  {
    TailApplies(c, [], rows, x);
    assert ClauseOps(c) == ProjectionOps(c, []) + SortOps(KeysOnOutputs(c.order, c.items)) + LimitOps(c);
    if Grouped(c) { GroupedDistinct(c, rows, x); } else { PlainDistinct(c, rows, x); }
  }

  lemma {:induction false} OutputsConcat(a: seq<Item>, b: seq<Item>)
    ensures Outputs(a + b) == Outputs(a) + Outputs(b)
  {
    if a == [] { assert a + b == b; } else {
      assert (a + b)[1..] == a[1..] + b;
      OutputsConcat(a[1..], b);
    }
  }

  lemma {:induction false} GroupSplit(items: seq<Item>, lifted: seq<Item>)
    ensures Outputs(GroupKeys(items, lifted)) + Outputs(BareAggregates(items, lifted)) <= Outputs(items)
    ensures lifted == [] ==>
      Outputs(GroupKeys(items, lifted)) + Outputs(BareAggregates(items, lifted)) == Outputs(items)
  {
    if items != [] { GroupSplit(items[1..], lifted); }
  }

  /** The columns of a grouped row. */
  lemma GroupRow(c: Clause, rows: seq<Row>, g: Row, x: Exec)
    requires GroupColumns(x) && g in Groups(c, rows, x)
    ensures g.Keys <= Outputs(c.items) + Outputs(c.lifted) && Outputs(c.lifted) <= g.Keys
    ensures c.lifted == [] ==> g.Keys == Outputs(c.items)
  {
    GroupSplit(c.items, c.lifted);
    OutputsConcat(BareAggregates(c.items, c.lifted), c.lifted);
  }

  lemma {:induction false} FinalOutputs(items: seq<Item>, lifted: seq<Item>)
    ensures Outputs(FinalItems(items, lifted)) == Outputs(items)
  {
    if items != [] { FinalOutputs(items[1..], lifted); }
  }

  lemma {:induction false} FinalFirst(items: seq<Item>, lifted: seq<Item>, item: Item)
    requires DistinctOutputs(items) && item in items
    ensures item.output in Outputs(items)
    ensures FirstItem(FinalItems(items, lifted), item.output)
      == Some(if ReadsColumn(item, lifted) then item.expr else Variable(item.output))
  {
    ReadsLiftedIff(items[0], lifted);
    if item != items[0] { FinalFirst(items[1..], lifted, item); }
    FinalOutputs(items[1..], lifted);
    assert FinalItems(items, lifted)[1..] == FinalItems(items[1..], lifted);
  }

  lemma {:induction false} FinalDistinct(items: seq<Item>, lifted: seq<Item>)
    requires DistinctOutputs(items)
    ensures DistinctOutputs(FinalItems(items, lifted))
  {
    if items != [] {
      FinalDistinct(items[1..], lifted);
      FinalOutputs(items[1..], lifted);
    }
  }

  /** Of a grouped row, an item that reads a lifted column is evaluated, any
      other keeps the column the grouping gave it. */
  lemma FinalColumn(items: seq<Item>, lifted: seq<Item>, item: Item, row: Row, env: Env)
    requires DistinctOutputs(items) && item in items
    ensures Lookup(Columns(FinalItems(items, lifted), row, env), item.output)
      == if ReadsColumn(item, lifted) then Eval(item.expr, row, env) else Lookup(row, item.output)
  {
    FinalFirst(items, lifted, item);
    FinalDistinct(items, lifted);
    FinalOutputs(items, lifted);
    OntoOutput(FinalItems(items, lifted), row, map[], item.output, env);
  }

  lemma PlainGroupsKeep(c: Clause, rows: seq<Row>, x: Exec)
    requires GroupColumns(x) && Grouped(c) && !c.distinct && c.lifted == []
    ensures MapRows(Wide(FinalItems(c.items, []), x.env), Groups(c, rows, x)) == Groups(c, rows, x)
    ensures forall g | g in Groups(c, rows, x) :: Only(Outputs(c.items))(g) == g
  {
    var groups, final := Groups(c, rows, x), FinalItems(c.items, []);
    FinalIsPassthrough(c.items);
    forall g | g in groups ensures Wide(final, x.env)(g) == g && Only(Outputs(c.items))(g) == g {
      GroupRow(c, rows, g, x);
      PassthroughTrims(c.items, g, x.env);
    }
    MapIdentity(Wide(final, x.env), groups);
  }

  /** A key that restates a projected expression reads the value it had on the
      row the columns were computed from. */
  lemma RestatedKey(c: Clause, key: SortKey, row: Row, env: Env)
    requires DistinctOutputs(c.items) && FindExpr(c.items, key.expr).Some?
    ensures var k := KeysOnOutputs([key], c.items)[0];
      Eval(k.expr, Shown(c, env)(row), env) == Eval(key.expr, row, env)
      && k.direction == key.direction && k.nulls == key.nulls
  {
    var item := FoundItem(c.items, key.expr);
    ItemFirst(c.items, item);
    OntoOutput(c.items, row, map[], item.output, env);
    ColumnKeys(c.items, row, env);
  }

  /** Grouping with nothing lifted: the grouped rows are the clause's rows. */
  lemma PlainGroups(c: Clause, rows: seq<Row>, x: Exec)
    requires ClauseFits(c, rows) && GroupColumns(x) && Grouped(c) && !c.distinct && c.lifted == []
    ensures ApplyAll(ClauseOps(c), rows, x) == Cypher(c, rows, x)
  {
    var groups, keys := Groups(c, rows, x), KeysOnOutputs(c.order, c.items);
    NoneKept(c);
    TailApplies(c, [], rows, x);
    ApplyOne(GroupOp(c), rows, x);
    assert ClauseOps(c) == ProjectionOps(c, []) + SortOps(keys) + LimitOps(c);
    PlainGroupsKeep(c, rows, x);
    LimitWithin(c, keys, groups, x);
    MapIdentity(Only(Outputs(c.items)), SortAndLimit(c, keys, groups, x));
  }

  lemma {:induction false} KeptSpec(lifted: seq<Item>, used: set<VarId>)
    ensures Outputs(KeptColumns(lifted, used)) == Outputs(lifted) * used
  {
    if lifted != [] { KeptSpec(lifted[1..], used); }
  }

  lemma {:induction false} OntoConcat(a: seq<Item>, b: seq<Item>, row: Row, out: Row, env: Env)
    ensures ProjectOnto(a + b, row, out, env) == ProjectOnto(b, row, ProjectOnto(a, row, out, env), env)
    decreases |a|
  {
    if a == [] { assert a + b == b; } else {
      assert (a + b)[1..] == a[1..] + b;
      OntoConcat(a[1..], b, row, out[a[0].output := Eval(a[0].expr, row, env)], env);
    }
  }

  /** The columns the sort sees: the final ones and the kept hidden ones. */
  function SortColumns(c: Clause): set<VarId> { Outputs(c.items) + Outputs(Kept(c)) }

  lemma Beside(g: Row, f: Row, outputs: set<VarId>, hidden: set<VarId>)
    requires f.Keys == outputs && hidden <= g.Keys && hidden !! outputs
    ensures f + (map v | v in hidden :: Lookup(g, v)) == Only(outputs + hidden)(g + f)
  {}

  lemma LiftedRow(c: Clause, rows: seq<Row>, g: Row, x: Exec)
    requires GroupColumns(x) && g in Groups(c, rows, x) && Outputs(c.lifted) !! Outputs(c.items)
    ensures var final := FinalItems(c.items, c.lifted);
      Columns(final + Passthrough(Kept(c)), g, x.env) == Only(SortColumns(c))(Wide(final, x.env)(g))
  {
    var final, kept := FinalItems(c.items, c.lifted), Kept(c);
    GroupRow(c, rows, g, x);
    KeptSpec(c.lifted, KeyVars(c.order));
    FinalOutputs(c.items, c.lifted);
    ColumnKeys(final, g, x.env);
    OntoConcat(final, Passthrough(kept), g, map[], x.env);
    PassthroughOnto(kept, g, Columns(final, g, x.env), x.env);
    Beside(g, Columns(final, g, x.env), Outputs(c.items), Outputs(kept));
  }

  lemma {:induction false} KeysAgree(
    order: seq<SortKey>, items: seq<Item>, a: Row, a': Row, b: Row, b': Row, env: Env, le: Rank)
    requires SameOn(a, a', KeyVars(order) + Outputs(items)) && SameOn(b, b', KeyVars(order) + Outputs(items))
    ensures NotAfter(KeysOnOutputs(order, items), a, b, env, le)
         == NotAfter(KeysOnOutputs(order, items), a', b', env, le)
  {
    if order != [] {
      var keys := KeysOnOutputs(order, items);
      KeysAgree(order[1..], items, a, a', b, b', env, le);
      assert keys[1..] == KeysOnOutputs(order[1..], items);
      if FindExpr(items, order[0].expr).Some? {
        var item := FoundItem(items, order[0].expr);
        OutputIn(items, item);
      } else {
        FreeWithinVars(order[0].expr);
      }
      Coincidence(keys[0].expr, a, a', env);
      Coincidence(keys[0].expr, b, b', env);
    }
  }

  lemma {:induction false} OutputIn(items: seq<Item>, item: Item)
    requires item in items
    ensures item.output in Outputs(items)
  {
    if items[0] != item { OutputIn(items[1..], item); }
  }

  /** The sort may see only its columns: it orders the wide rows the same. */
  lemma LiftedSort(c: Clause, rows: seq<Row>, x: Exec)
    requires GroupColumns(x)
    ensures var wide := MapRows(Wide(FinalItems(c.items, c.lifted), x.env), Groups(c, rows, x));
      var keys := KeysOnOutputs(c.order, c.items);
      StableSort(keys, MapRows(Only(SortColumns(c)), wide), x.env, x.le)
      == MapRows(Only(SortColumns(c)), StableSort(keys, wide, x.env, x.le))
  {
    var final, groups := FinalItems(c.items, c.lifted), Groups(c, rows, x);
    var wide, keys := MapRows(Wide(final, x.env), groups), KeysOnOutputs(c.order, c.items);
    var f := Only(SortColumns(c));
    forall r, s | r in wide && s in wide
      ensures NotAfter(keys, f(r), f(s), x.env, x.le) == NotAfter(keys, r, s, x.env, x.le)
    {
      SortColumnsSuffice(c, rows, r, x);
      SortColumnsSuffice(c, rows, s, x);
      KeysAgree(c.order, c.items, f(r), r, f(s), s, x.env, x.le);
    }
    MapSort(f, keys, keys, wide, x.env, x.le);
  }

  lemma SortColumnsSuffice(c: Clause, rows: seq<Row>, w: Row, x: Exec)
    requires GroupColumns(x)
    requires w in MapRows(Wide(FinalItems(c.items, c.lifted), x.env), Groups(c, rows, x))
    ensures SameOn(Only(SortColumns(c))(w), w, KeyVars(c.order) + Outputs(c.items))
    ensures Outputs(c.items) <= w.Keys
  {
    var final := FinalItems(c.items, c.lifted);
    var g := MapMember(Wide(final, x.env), Groups(c, rows, x), w);
    GroupRow(c, rows, g, x);
    FinalOutputs(c.items, c.lifted);
    ColumnKeys(final, g, x.env);
    KeptSpec(c.lifted, KeyVars(c.order));
  }

  /** What the sort and LIMIT leave of the grouped rows. */
  function LiftedDone(c: Clause, rows: seq<Row>, x: Exec): seq<Row> {
    SortAndLimit(c, KeysOnOutputs(c.order, c.items),
                 MapRows(Wide(FinalItems(c.items, c.lifted), x.env), Groups(c, rows, x)), x)
  }

  /** Grouping with lifted aggregates. */
  lemma LiftedGroups(c: Clause, rows: seq<Row>, x: Exec)
    requires ClauseFits(c, rows) && GroupColumns(x) && c.lifted != [] && !c.distinct
    ensures ApplyAll(ClauseOps(c), rows, x) == Cypher(c, rows, x)
  {
    var kept, keys := Kept(c), KeysOnOutputs(c.order, c.items);
    var trim := if kept == [] then [] else [TrimOp(c)];
    var ops := ProjectionOps(c, kept) + SortOps(keys) + LimitOps(c);
    assert ClauseOps(c) == ops + trim;
    ApplyConcat(ops, trim, rows, x);
    LiftedSeen(c, rows, x);
    LiftedTrim(c, rows, x);
    assert Cypher(c, rows, x) == MapRows(Only(Outputs(c.items)), LiftedDone(c, rows, x));
  }

  lemma LiftedSeen(c: Clause, rows: seq<Row>, x: Exec)
    requires ClauseFits(c, rows) && GroupColumns(x) && c.lifted != [] && !c.distinct
    ensures ApplyAll(ProjectionOps(c, Kept(c)) + SortOps(KeysOnOutputs(c.order, c.items)) + LimitOps(c), rows, x)
         == MapRows(Only(SortColumns(c)), LiftedDone(c, rows, x))
  {
    var wide := MapRows(Wide(FinalItems(c.items, c.lifted), x.env), Groups(c, rows, x));
    LiftedBase(c, rows, x);
    TailApplies(c, Kept(c), rows, x);
    LiftedSort(c, rows, x);
    MapLimit(Only(SortColumns(c)), StableSort(KeysOnOutputs(c.order, c.items), wide, x.env, x.le),
             c.skip, c.limit, x.env);
  }

  lemma LiftedBase(c: Clause, rows: seq<Row>, x: Exec)
    requires ClauseFits(c, rows) && GroupColumns(x) && c.lifted != [] && !c.distinct
    ensures ApplyAll(ProjectionOps(c, Kept(c)), rows, x)
         == MapRows(Only(SortColumns(c)), MapRows(Wide(FinalItems(c.items, c.lifted), x.env), Groups(c, rows, x)))
  {
    var final, kept, groups := FinalItems(c.items, c.lifted), Kept(c), Groups(c, rows, x);
    var all := final + Passthrough(kept);
    assert ProjectionOps(c, kept) == [GroupOp(c)] + [Projection(0, false, all, false)];
    ApplyConcat([GroupOp(c)], [Projection(0, false, all, false)], rows, x);
    ApplyOne(GroupOp(c), rows, x);
    ApplyOne(Projection(0, false, all, false), groups, x);
    ProjectionMaps(0, false, all, false, Narrow(all, x.env), groups, x);
    forall g | g in groups ensures Only(SortColumns(c))(Wide(final, x.env)(g)) == Narrow(all, x.env)(g) {
      LiftedRow(c, rows, g, x);
    }
    MapTwice(Wide(final, x.env), Only(SortColumns(c)), Narrow(all, x.env), groups);
  }

  lemma LiftedTrim(c: Clause, rows: seq<Row>, x: Exec)
    requires GroupColumns(x)
    ensures ApplyAll(if Kept(c) == [] then [] else [TrimOp(c)],
                     MapRows(Only(SortColumns(c)), LiftedDone(c, rows, x)), x)
         == MapRows(Only(Outputs(c.items)), LiftedDone(c, rows, x))
  {
    var done := LiftedDone(c, rows, x);
    var seen := MapRows(Only(SortColumns(c)), done);
    ApplyOne(TrimOp(c), seen, x);
    if Kept(c) == [] {
      assert SortColumns(c) == Outputs(c.items);
    } else {
      forall r | r in seen ensures Outputs(c.items) <= r.Keys { SeenColumns(c, rows, r, x); }
      TrimApplies(c, seen, x);
      MapTwice(Only(SortColumns(c)), Only(Outputs(c.items)), Only(Outputs(c.items)), done);
    }
  }

  lemma SeenColumns(c: Clause, rows: seq<Row>, r: Row, x: Exec)
    requires GroupColumns(x) && r in MapRows(Only(SortColumns(c)), LiftedDone(c, rows, x))
    ensures Outputs(c.items) <= r.Keys
  {
    var wide := MapRows(Wide(FinalItems(c.items, c.lifted), x.env), Groups(c, rows, x));
    LimitWithin(c, KeysOnOutputs(c.order, c.items), wide, x);
    var w := MapMember(Only(SortColumns(c)), LiftedDone(c, rows, x), r);
    SortColumnsSuffice(c, rows, w, x);
  }

  // ----- the theorem -----

  /** For every input, the planned operators yield the clause's rows: those
      projected, then sorted, then limited, then trimmed. */
  lemma PlanFollowsCypher(c: Clause, rows: seq<Row>, x: Exec)
    requires ClauseFits(c, rows) && GroupColumns(x)
    ensures ApplyAll(ClauseOps(c), rows, x) == Cypher(c, rows, x)
  {
    if c.distinct {
      DistinctClause(c, rows, x);
    } else if !Grouped(c) {
      if c.order == [] { UnorderedClause(c, rows, x); } else { OrderedClause(c, rows, x); }
    } else if c.lifted == [] {
      PlainGroups(c, rows, x);
    } else {
      LiftedGroups(c, rows, x);
    }
  }

  lemma ClauseOpsOnly(c: Clause)
    ensures forall i | 0 <= i < |ClauseOps(c)| :: ClauseOp(ClauseOps(c)[i])
  {
    assert forall op | op in LimitOps(c) :: ClauseOp(op);
    assert forall op | op in ProjectionOps(c, Kept(c)) :: ClauseOp(op);
    assert forall op | op in ProjectionOps(c, []) :: ClauseOp(op);
    assert forall op | op in SortOps(KeysOnOutputs(c.order, c.items)) :: ClauseOp(op);
    assert ClauseOp(TrimOp(c));
    forall op | op in ClauseOps(c) ensures ClauseOp(op) {}
  }

  /** And so does the arena they are pushed onto. */
  lemma PlannedClause(nodes: seq<LogicalOp>, input: nat, c: Clause, x: Exec, arg: Row)
    requires Topological(nodes) && input < |nodes|
    requires ClauseFits(c, Denote(nodes, input, x, arg)) && GroupColumns(x)
    ensures var (out, id) := PushAll(nodes, input, ClauseOps(c));
      Topological(out) && id < |out| && |nodes| <= |out| && out[..|nodes|] == nodes
      && Denote(out, id, x, arg) == Cypher(c, Denote(nodes, input, x, arg), x)
  {
    ClauseOpsOnly(c);
    PushAllDenotes(nodes, input, ClauseOps(c), x, arg);
    PlanFollowsCypher(c, Denote(nodes, input, x, arg), x);
  }
}
