/** Serving an ORDER BY from an index-ordered scan. */
module SortOrder {
  import opened Values
  import opened Expressions
  import opened Conjuncts
  import opened Sorting
  import opened Logical
  import opened RangeBounds
  import opened Accesses
  import opened FilterPush
  import opened Arena
  import opened Walks
  import opened NodeSeeks

  // ----- the range beside a null test -----

  /** `v.key IS NULL`, alone or as a conjunct. */
  predicate IsNullTest(e: Expr, v: VarId, key: string) {
    exists c | c in ConjunctsOf(e) :: c.Binary? && c.op.IsNull? && PropertyAccess(c.lhs, v) == Some(key)
  }

  function NotNullTests(ds: seq<Expr>, v: VarId, key: string): seq<Expr> {
    if ds == [] then []
    else
      var rest := NotNullTests(ds[1..], v, key);
      if IsNullTest(ds[0], v, key) then rest else [ds[0]] + rest
  }

  function OnKey(visits: seq<Visit>, key: string): seq<Visit> {
    if visits == [] then []
    else
      var rest := OnKey(visits[1..], key);
      if visits[0].key == key then [visits[0]] + rest else rest
  }

  /** The bounds of `(range on v.key) OR v.key IS NULL`. */
  function RangeBesideNull(c: Expr, v: VarId, key: string, round: Rounding): Option<Bounds> {
    var ds := DisjunctsOf(c);
    var ranges := NotNullTests(ds, v, key);
    if |ranges| != 1 || |ds| == 1 then None
    else
      var visits := OnKey(VisitsOf(ranges[0], v), key);
      if visits == [] then None else Some(AddAll(NoBounds(key), visits, round))
  }

  function FirstRangeBesideNull(cs: seq<Expr>, v: VarId, key: string, round: Rounding): Option<Bounds> {
    if cs == [] then None
    else
      var first := RangeBesideNull(cs[0], v, key, round);
      if first.Some? then first else FirstRangeBesideNull(cs[1..], v, key, round)
  }

  function RangeOrNull(pred: Expr, v: VarId, key: string, round: Rounding): Option<Bounds> {
    FirstRangeBesideNull(ConjunctsOf(pred), v, key, round)
  }

  function FirstRangeOrNull(preds: seq<Expr>, v: VarId, key: string, round: Rounding): Option<Bounds> {
    if preds == [] then None
    else
      var first := RangeOrNull(preds[0], v, key, round);
      if first.Some? then first else FirstRangeOrNull(preds[1..], v, key, round)
  }

  // ----- from the sort down to the scan -----

  /** What an alias stands for below a projection. */
  function ResolveAlias(key: Expr, items: seq<Item>): Expr {
    if key.Variable? && FirstItem(items, key.v).Some? then FirstItem(items, key.v).value else key
  }

  datatype Descent = Descent(scan: nat, key: Expr, preds: seq<Expr>)

  /** Through filters and non-distinct projections. */
  function Descend(nodes: seq<LogicalOp>, cursor: nat, key: Expr, preds: seq<Expr>): Option<Descent>
    requires Topological(nodes) && cursor < |nodes|
  {
    var op := nodes[cursor];
    if op.NodeScan? || (op.NodeSeek? && op.access.ByRange?) then Some(Descent(cursor, key, preds))
    else if !op.Filter? && (!op.Projection? || op.distinct) then None
    else
      assert op.input in Inputs(op) && InputsBelow(op, cursor);
      if op.Filter? then Descend(nodes, op.input, key, preds + [op.pred])
      else Descend(nodes, op.input, ResolveAlias(key, op.items), preds)
  }

  /** A range seek that needs no input and promises no order yet. */
  predicate RangeSeek(scan: LogicalOp) {
    scan.NodeSeek? && scan.source.None? && scan.access.ByRange? && scan.access.order.None?
  }

  /** The scan that yields its nodes in the order of `lead`, if the index can
      serve it. */
  function OrderedScan(
    scan: LogicalOp, key: Expr, preds: seq<Expr>, lead: SortKey, catalog: Catalog, round: Rounding)
    : Option<LogicalOp>
  {
    if !key.Property? || !key.base.Variable? then None
    else if RangeSeek(scan) then
      var bounds := scan.access.bounds;
      if scan.v != key.base.v || bounds.key != key.key then None
      else Some(NodeSeek(None, scan.v, scan.labels, ByRange(bounds, Some(lead.direction), scan.access.nulls)))
    else if scan.NodeScan? && scan.source.None? && scan.v == key.base.v
         && FirstLabel(scan.labels).Some? && catalog(RangeIndex, FirstLabel(scan.labels).value, key.key)
    then
      var b := FirstRangeOrNull(preds, scan.v, key.key, round);
      if b.None? then None
      else Some(NodeSeek(None, scan.v, scan.labels, ByRange(b.value, Some(lead.direction), Some(lead.nulls))))
    else None
  }

  /** A sort on one key becomes a projection that changes nothing; with more
      keys it stays, told that its input is in order of the first. */
  function OrderAt(nodes: seq<LogicalOp>, i: nat, catalog: Catalog, round: Rounding)
    : (out: seq<LogicalOp>)
    requires Topological(nodes)
    ensures |out| == |nodes|
  {
    if i >= |nodes| || !nodes[i].Sort? || nodes[i].keys == [] || nodes[i].presorted > 0
       || nodes[i].input >= |nodes|
    then nodes
    else
      var sort := nodes[i];
      match Descend(nodes, sort.input, sort.keys[0].expr, [])
      case None => nodes
      case Some(d) =>
        if d.scan >= |nodes| then nodes
        else match OrderedScan(nodes[d.scan], d.key, d.preds, sort.keys[0], catalog, round)
          case None => nodes
          case Some(scan) =>
            nodes[d.scan := scan][i := if |sort.keys| == 1 then Projection(sort.input, false, [], true)
                                       else Sort(sort.input, sort.keys, sort.topK, sort.bound, 1)]
  }

  // ----- key values through projections -----

  /** Outputs that do not just pass a variable on. */
  function Renamed(items: seq<Item>): set<VarId> {
    if items == [] then {}
    else (if items[0].expr == Variable(items[0].output) then {} else {items[0].output}) + Renamed(items[1..])
  }

  /** The variable of `v` or `v.key`. */
  function KeyVar(e: Expr): Option<VarId> {
    if e.Variable? then Some(e.v)
    else if e.Property? && e.base.Variable? then Some(e.base.v)
    else None
  }

  /** The projection's outputs are fresh or passed on, as far as the key can
      tell, and the key is in scope above it. */
  predicate CleanItems(items: seq<Item>, keep: bool, key: Expr) {
    && DistinctOutputs(items)
    && KeyVar(key).Some? && KeyVar(ResolveAlias(key, items)).Some?
    && (keep || KeyVar(key).value in Outputs(items))
    && (key.Property? ==> KeyVar(key).value !in Renamed(items))
    && (keep ==> KeyVar(ResolveAlias(key, items)).value !in Renamed(items))
  }

  lemma {:induction false} OverUnrenamed(items: seq<Item>, row: Row, w: VarId, env: Env)
    requires w !in Renamed(items)
    ensures Lookup(ProjectOver(items, row, env), w) == Lookup(row, w)
    decreases |items|
  {
    if items != [] {
      OverUnrenamed(items[1..], row[items[0].output := Eval(items[0].expr, row, env)], w, env);
    }
  }

  lemma {:induction false} RenamedAreOutputs(items: seq<Item>)
    ensures Renamed(items) <= Outputs(items)
  {
    if items != [] { RenamedAreOutputs(items[1..]); }
  }

  lemma KeyReadsItsVar(e: Expr, a: Row, b: Row, env: Env)
    requires KeyVar(e).Some? && Lookup(a, KeyVar(e).value) == Lookup(b, KeyVar(e).value)
    ensures Eval(e, a, env) == Eval(e, b, env)
  {
    if e.Property? { assert Eval(e.base, a, env) == Eval(e.base, b, env); }
  }

  lemma {:induction false} OverOutput(items: seq<Item>, row: Row, u: VarId, env: Env)
    requires DistinctOutputs(items) && FirstItem(items, u).Some?
    requires KeyVar(FirstItem(items, u).value).Some?
    requires KeyVar(FirstItem(items, u).value).value !in Renamed(items)
    ensures Lookup(ProjectOver(items, row, env), u) == Eval(FirstItem(items, u).value, row, env)
    decreases |items|
  {
    var next := row[items[0].output := Eval(items[0].expr, row, env)];
    if items[0].output == u {
      RenamedAreOutputs(items[1..]);
      OverUnrenamed(items[1..], next, u, env);
    } else {
      OverOutput(items[1..], next, u, env);
      KeyReadsItsVar(FirstItem(items, u).value, next, row, env);
    }
  }

  lemma {:induction false} UnrenamedPasses(items: seq<Item>, u: VarId)
    requires u !in Renamed(items) && u in Outputs(items)
    ensures FirstItem(items, u) == Some(Variable(u))
  {
    if items[0].output != u { UnrenamedPasses(items[1..], u); }
  }

  lemma {:induction false} NoItem(items: seq<Item>, u: VarId)
    ensures u in Outputs(items) <==> FirstItem(items, u).Some?
  {
    if items != [] { NoItem(items[1..], u); }
  }

  /** A projection does not change the value of a variable it only passes on. */
  lemma PassedOn(items: seq<Item>, keep: bool, w: VarId, row: Row, env: Env)
    requires DistinctOutputs(items) && w !in Renamed(items) && (keep || w in Outputs(items))
    ensures Lookup(ProjectRow(items, keep, row, env), w) == Lookup(row, w)
  {
    if keep {
      OverUnrenamed(items, row, w, env);
    } else {
      OntoOutput(items, row, map[], w, env);
      UnrenamedPasses(items, w);
    }
  }

  /** Above and below a projection the key has the same value. */
  lemma ProjectedKey(items: seq<Item>, keep: bool, key: Expr, row: Row, env: Env)
    requires CleanItems(items, keep, key)
    ensures Eval(key, ProjectRow(items, keep, row, env), env) == Eval(ResolveAlias(key, items), row, env)
  {
    var above := ProjectRow(items, keep, row, env);
    var u := KeyVar(key).value;
    NoItem(items, u);
    if key.Property? {
      PassedOn(items, keep, u, row, env);
      KeyReadsItsVar(key, above, row, env);
    } else if u in Outputs(items) {
      if keep { OverOutput(items, row, u, env); } else { OntoOutput(items, row, map[], u, env); }
    } else {
      RenamedAreOutputs(items);
      OverUnrenamed(items, row, u, env);
    }
  }

  // ----- soundness of the range beside a null test -----

  lemma {:induction false} OnKeyWithin(visits: seq<Visit>, key: string)
    ensures forall visit | visit in OnKey(visits, key) :: visit in visits && visit.key == key
  {
    if visits != [] { OnKeyWithin(visits[1..], key); }
  }

  lemma {:induction false} NotNullTestsCover(ds: seq<Expr>, v: VarId, key: string)
    ensures forall d | d in ds :: IsNullTest(d, v, key) || d in NotNullTests(ds, v, key)
  {
    if ds != [] { NotNullTestsCover(ds[1..], v, key); }
  }

  lemma {:induction false} FirstBesideNullIn(cs: seq<Expr>, v: VarId, key: string, round: Rounding)
    returns (c: Expr)
    requires FirstRangeBesideNull(cs, v, key, round).Some?
    ensures c in cs && RangeBesideNull(c, v, key, round) == FirstRangeBesideNull(cs, v, key, round)
  {
    if RangeBesideNull(cs[0], v, key, round).Some? { c := cs[0]; }
    else { c := FirstBesideNullIn(cs[1..], v, key, round); }
  }

  // ====================
  // The index-ordered scan gives a correct ORDER BY: the same rows, sorted.

  // ----- the path from the sort to the scan, row by row -----

  function OptionRow(r: Option<Row>): seq<Row> { match r case None => [] case Some(row) => [row] }

  function Option1(op: LogicalOp, r: Option<Row>, env: Env): Option<Row> {
    if r.None? then None
    else if op.Filter? then if Eval(op.pred, r.value, env).Truthy() then r else None
    else if op.Projection? then Some(ProjectRow(op.items, op.includeExisting, r.value, env))
    else None
  }

  predicate OnPath(op: LogicalOp) { op.Filter? || (op.Projection? && !op.distinct) }

  /** What becomes of a row of the scan `s` at node `cursor`. */
  function PathRow(nodes: seq<LogicalOp>, cursor: nat, s: nat, row: Row, env: Env): Option<Row>
    requires Topological(nodes) && cursor < |nodes|
    decreases cursor
  {
    if cursor == s then Some(row)
    else if !OnPath(nodes[cursor]) then None
    else
      var op := nodes[cursor];
      assert op.input in Inputs(op) && InputsBelow(op, cursor);
      Option1(op, PathRow(nodes, op.input, s, row, env), env)
  }

  /** The nodes from `cursor` down to, not including, the scan. */
  ghost function PathIds(nodes: seq<LogicalOp>, cursor: nat, s: nat): set<nat>
    requires Topological(nodes) && cursor < |nodes|
    decreases cursor
  {
    if cursor == s || !OnPath(nodes[cursor]) then {}
    else
      assert nodes[cursor].input in Inputs(nodes[cursor]) && InputsBelow(nodes[cursor], cursor);
      {cursor} + PathIds(nodes, nodes[cursor].input, s)
  }

  ghost predicate Descends(nodes: seq<LogicalOp>, cursor: nat, key: Expr, preds: seq<Expr>, d: Descent)
    requires Topological(nodes)
  {
    cursor < |nodes| && Descend(nodes, cursor, key, preds) == Some(d)
  }

  lemma {:induction false} DescentBelow(
    nodes: seq<LogicalOp>, cursor: nat, key: Expr, preds: seq<Expr>, d: Descent)
    requires Topological(nodes) && Descends(nodes, cursor, key, preds, d)
    ensures d.scan <= cursor && (nodes[d.scan].NodeScan? || nodes[d.scan].NodeSeek?)
    ensures forall k | k in PathIds(nodes, cursor, d.scan) :: d.scan < k <= cursor
    decreases cursor
  {
    var op := nodes[cursor];
    if OnPath(op) {
      assert op.input in Inputs(op) && InputsBelow(op, cursor);
      match op
      case Filter(input, pred) => DescentBelow(nodes, input, key, preds + [pred], d);
      case Projection(input, _, items, _) => DescentBelow(nodes, input, ResolveAlias(key, items), preds, d);
    }
  }

  ghost function Rows(f: Row -> Option<Row>): Row -> seq<Row> { (r: Row) => OptionRow(f(r)) }

  ghost function Then(f: Row -> Option<Row>, op: LogicalOp, env: Env): Row -> Option<Row> {
    (r: Row) => Option1(op, f(r), env)
  }

  /** A step of the path on all rows, given the step on each. */
  lemma {:induction false} StepOptions(op: LogicalOp, f: Row -> Option<Row>, s: seq<Row>, x: Exec)
    requires OnPath(op)
    ensures StepAll(op, FlatMap(Rows(f), s), x) == FlatMap(Rows(Then(f, op, x.env)), s)
  {
    if s != [] {
      StepOptions(op, f, s[1..], x);
      StepAllConcat(op, Rows(f)(s[0]), FlatMap(Rows(f), s[1..]), x);
      if f(s[0]).Some? { SingleStep(op, f(s[0]).value, x); }
    }
  }

  lemma {:induction false} FlatMapUnit(rows: seq<Row>)
    ensures FlatMap((r: Row) => OptionRow(Some(r)), rows) == rows
  {
    if rows != [] { FlatMapUnit(rows[1..]); }
  }

  ghost function PathOf(nodes: seq<LogicalOp>, cursor: nat, s: nat, env: Env): Row -> seq<Row>
    requires Topological(nodes) && cursor < |nodes|
  {
    (r: Row) => OptionRow(PathRow(nodes, cursor, s, r, env))
  }

  ghost function PathAll(nodes: seq<LogicalOp>, cursor: nat, s: nat, rows: seq<Row>, env: Env): seq<Row>
    requires Topological(nodes) && cursor < |nodes|
  {
    FlatMap(PathOf(nodes, cursor, s, env), rows)
  }

  lemma PathStep(nodes: seq<LogicalOp>, cursor: nat, s: nat, rows: seq<Row>, x: Exec)
    requires Topological(nodes) && s < cursor < |nodes| && OnPath(nodes[cursor])
    requires nodes[cursor].input < cursor
    ensures StepAll(nodes[cursor], PathAll(nodes, nodes[cursor].input, s, rows, x.env), x)
         == PathAll(nodes, cursor, s, rows, x.env)
  {
    var op := nodes[cursor];
    var g := (r: Row) => PathRow(nodes, op.input, s, r, x.env);
    FlatMapSame(PathOf(nodes, op.input, s, x.env), Rows(g), rows);
    StepOptions(op, g, rows, x);
    FlatMapSame(PathOf(nodes, cursor, s, x.env), Rows(Then(g, op, x.env)), rows);
  }

  lemma PathHere(nodes: seq<LogicalOp>, s: nat, rows: seq<Row>, env: Env)
    requires Topological(nodes) && s < |nodes|
    ensures PathAll(nodes, s, s, rows, env) == rows
  {
    FlatMapSame(PathOf(nodes, s, s, env), (r: Row) => OptionRow(Some(r)), rows);
    FlatMapUnit(rows);
  }

  /** The rows at `cursor` are the scan's rows, each through the path; `b` may
      differ from `nodes` at the scan and above the path. */
  lemma {:induction false} PathRows(
    nodes: seq<LogicalOp>, b: seq<LogicalOp>, cursor: nat, key: Expr, preds: seq<Expr>, d: Descent,
    x: Exec, arg: Row)
    requires Topological(nodes) && Topological(b) && Descends(nodes, cursor, key, preds, d)
    requires |b| == |nodes| && forall k | 0 <= k <= cursor && k != d.scan :: b[k] == nodes[k]
    requires d.scan < |b|
    ensures Denote(b, cursor, x, arg)
         == PathAll(nodes, cursor, d.scan, Denote(b, d.scan, x, arg), x.env)
    decreases cursor
  {
    DescentBelow(nodes, cursor, key, preds, d);
    var rows := Denote(b, d.scan, x, arg);
    if cursor == d.scan {
      PathHere(nodes, d.scan, rows, x.env);
    } else {
      var op := nodes[cursor];
      assert op.input in Inputs(op) && InputsBelow(op, cursor);
      if op.Filter? { PathRows(nodes, b, op.input, key, preds + [op.pred], d, x, arg); }
      else { PathRows(nodes, b, op.input, ResolveAlias(key, op.items), preds, d, x, arg); }
      PathStep(nodes, cursor, d.scan, rows, x);
    }
  }

  // ----- the key along the path -----

  /** Every projection on the path is clean for the key as it reads there. */
  predicate CleanPath(nodes: seq<LogicalOp>, cursor: nat, key: Expr)
    requires Topological(nodes) && cursor < |nodes|
  {
    var op := nodes[cursor];
    if !op.Filter? && !op.Projection? then true
    else
      assert op.input in Inputs(op) && InputsBelow(op, cursor);
      if op.Filter? then CleanPath(nodes, op.input, key)
      else CleanItems(op.items, op.includeExisting, key) && CleanPath(nodes, op.input, ResolveAlias(key, op.items))
  }

  lemma {:induction false} PathKey(
    nodes: seq<LogicalOp>, cursor: nat, key: Expr, preds: seq<Expr>, d: Descent, row: Row, env: Env)
    requires Topological(nodes) && Descends(nodes, cursor, key, preds, d) && CleanPath(nodes, cursor, key)
    requires PathRow(nodes, cursor, d.scan, row, env).Some?
    ensures Eval(key, PathRow(nodes, cursor, d.scan, row, env).value, env) == Eval(d.key, row, env)
    decreases cursor
  {
    DescentBelow(nodes, cursor, key, preds, d);
    if cursor != d.scan {
      var op := nodes[cursor];
      assert op.input in Inputs(op) && InputsBelow(op, cursor);
      if op.Filter? {
        PathKey(nodes, op.input, key, preds + [op.pred], d, row, env);
      } else {
        PathKey(nodes, op.input, ResolveAlias(key, op.items), preds, d, row, env);
        ProjectedKey(op.items, op.includeExisting, key,
                     PathRow(nodes, op.input, d.scan, row, env).value, env);
      }
    }
  }

  // ----- the range along the path -----

  /** From `cursor` down, projections pass `v` on and leave `vars` alone. */
  ghost predicate StableBelow(nodes: seq<LogicalOp>, cursor: nat, v: VarId, vars: set<VarId>)
    requires Topological(nodes) && cursor < |nodes|
  {
    var op := nodes[cursor];
    if !op.Filter? && !op.Projection? then true
    else
      assert op.input in Inputs(op) && InputsBelow(op, cursor);
      && (op.Projection? ==>
            && DistinctOutputs(op.items) && v !in Renamed(op.items)
            && (op.includeExisting || v in Outputs(op.items))
            && (vars == {} || (op.includeExisting && vars !! Outputs(op.items))))
      && StableBelow(nodes, op.input, v, vars)
  }

  lemma {:induction false} OverElsewhere(items: seq<Item>, row: Row, vars: set<VarId>, env: Env)
    requires vars !! Outputs(items)
    ensures SameOn(ProjectOver(items, row, env), row, vars)
    decreases |items|
  {
    if items != [] {
      OverElsewhere(items[1..], row[items[0].output := Eval(items[0].expr, row, env)], vars, env);
    }
  }

  lemma {:induction false} PathStable(
    nodes: seq<LogicalOp>, cursor: nat, s: nat, v: VarId, vars: set<VarId>, row: Row, env: Env)
    requires Topological(nodes) && cursor < |nodes| && StableBelow(nodes, cursor, v, vars)
    requires PathRow(nodes, cursor, s, row, env).Some?
    ensures var m := PathRow(nodes, cursor, s, row, env).value;
      Lookup(m, v) == Lookup(row, v) && SameOn(m, row, vars)
    decreases cursor
  {
    if cursor != s {
      var op := nodes[cursor];
      assert op.input in Inputs(op) && InputsBelow(op, cursor);
      PathStable(nodes, op.input, s, v, vars, row, env);
      if op.Projection? {
        var m := PathRow(nodes, op.input, s, row, env).value;
        PassedOn(op.items, op.includeExisting, v, m, env);
        if vars != {} { OverElsewhere(op.items, m, vars, env); }
      }
    }
  }

  function BoundVars(b: Bounds): set<VarId> {
    OptionVars(b.lo) + OptionVars(b.hi) + BoundsVars(b.extra)
  }

  /** Where a filter of the path offers a range, the projections below it keep
      what the range reads. */
  ghost predicate RangesStable(nodes: seq<LogicalOp>, cursor: nat, v: VarId, key: string, round: Rounding)
    requires Topological(nodes) && cursor < |nodes|
    decreases cursor
  {
    var op := nodes[cursor];
    if !op.Filter? && !op.Projection? then true
    else
      assert op.input in Inputs(op) && InputsBelow(op, cursor);
      && RangesStable(nodes, op.input, v, key, round)
      && (op.Filter? && RangeOrNull(op.pred, v, key, round).Some? ==>
            StableBelow(nodes, op.input, v, BoundVars(RangeOrNull(op.pred, v, key, round).value)))
  }

  lemma {:induction false} TightenSameOn(r: RangeValues, extra: seq<ExtraBound>, a: Row, b: Row, env: Env)
    requires SameOn(a, b, BoundsVars(extra))
    ensures Tighten(r, extra, a, env) == Tighten(r, extra, b, env)
    decreases |extra|
  {
    if extra != [] {
      FreeWithinVars(extra[0].value);
      Coincidence(extra[0].value, a, b, env);
      TightenSameOn(TightenOne(r, extra[0], Eval(extra[0].value, a, env)), extra[1..], a, b, env);
    }
  }

  lemma RangeSameOn(b: Bounds, p: Row, q: Row, env: Env)
    requires SameOn(p, q, BoundVars(b))
    ensures RangeOf(b, p, env) == RangeOf(b, q, env)
  {
    if b.lo.Some? { FreeWithinVars(b.lo.value); Coincidence(b.lo.value, p, q, env); }
    if b.hi.Some? { FreeWithinVars(b.hi.value); Coincidence(b.hi.value, p, q, env); }
    var lo := if b.lo.Some? then Some(Eval(b.lo.value, p, env)) else None;
    var hi := if b.hi.Some? then Some(Eval(b.hi.value, p, env)) else None;
    var hi' := if hi == Some(Null) then None else hi;
    TightenSameOn(RangeValues(lo, b.loInclusive, hi', b.hiInclusive), b.extra, p, q, env);
  }

  lemma TrueRangeBounds(
    e: Expr, v: VarId, key: string, round: Rounding, row: Row, id: nat, props: map<string, Value>,
    names: set<string>, env: Env)
    requires Eval(e, row, env).Truthy() && Binds(row, v, id, props, names, env)
    requires OnKey(VisitsOf(e, v), key) != []
    ensures BoundsSound(AddAll(NoBounds(key), OnKey(VisitsOf(e, v), key), round), v, row, props, env)
  {
    var visits := OnKey(VisitsOf(e, v), key);
    OnKeyWithin(VisitsOf(e, v), key);
    VisitsSound(e, v, row, id, props, names, env);
    assert visits[0] in visits;
    VisitsBound(NoBounds(key), visits, round, v, row, props, env);
  }

  /** A true conjunct leaves the property null or inside the range. */
  lemma BesideNullSound(
    c: Expr, v: VarId, key: string, round: Rounding, row: Row, id: nat, props: map<string, Value>,
    names: set<string>, env: Env)
    requires RangeBesideNull(c, v, key, round).Some? && Eval(c, row, env).Truthy()
    requires Binds(row, v, id, props, names, env)
    ensures var b := RangeBesideNull(c, v, key, round).value;
      b.key == key && (LookupKey(props, key).Null? || BoundsSound(b, v, row, props, env))
  {
    var ds := DisjunctsOf(c);
    var ranges := NotNullTests(ds, v, key);
    AddAllKey(NoBounds(key), OnKey(VisitsOf(ranges[0], v), key), round);
    NotNullTestsCover(ds, v, key);
    DisjunctsDecide(c, row, env);
    var e :| e in ds && Eval(e, row, env).Truthy();
    if IsNullTest(e, v, key) {
      NullTestSound(e, v, key, row, id, props, names, env);
    } else {
      assert e == ranges[0];
      TrueRangeBounds(e, v, key, round, row, id, props, names, env);
    }
  }

  lemma NullTestSound(
    e: Expr, v: VarId, key: string, row: Row, id: nat, props: map<string, Value>,
    names: set<string>, env: Env)
    requires IsNullTest(e, v, key) && Eval(e, row, env).Truthy() && Binds(row, v, id, props, names, env)
    ensures LookupKey(props, key).Null?
  {
    ConjunctsDecide(e, row, env);
    var c :| c in ConjunctsOf(e) && c.Binary? && c.op.IsNull? && PropertyAccess(c.lhs, v) == Some(key);
    PropertyValue(c.lhs, v, row, id, props, names, env);
  }

  lemma {:induction false} AddAllKey(b: Bounds, visits: seq<Visit>, round: Rounding)
    ensures AddAll(b, visits, round).key == b.key
    decreases |visits|
  {
    if visits != [] {
      var w := visits[0];
      AddAllKey(if w.key == b.key then AddBound(b, w.side, w.value, w.inclusive, round) else b,
                visits[1..], round);
    }
  }

  lemma {:induction false} FirstPredIn(preds: seq<Expr>, v: VarId, key: string, round: Rounding)
    returns (p: Expr)
    requires FirstRangeOrNull(preds, v, key, round).Some?
    ensures p in preds && RangeOrNull(p, v, key, round) == FirstRangeOrNull(preds, v, key, round)
  {
    if RangeOrNull(preds[0], v, key, round).Some? { p := preds[0]; }
    else { p := FirstPredIn(preds[1..], v, key, round); }
  }

  /** Whether the ordered scan finds the node `row` binds `v` to. */
  ghost predicate InRange(b: Bounds, row: Row, props: map<string, Value>, env: Env) {
    LookupKey(props, b.key).Null? || (b.key in props && RangeHolds(props[b.key], RangeOf(b, row, env)))
  }

  /** A row that reaches the sort came from a node in the range. */
  lemma {:induction false} PathInRange(
    nodes: seq<LogicalOp>, cursor: nat, key0: Expr, preds: seq<Expr>, d: Descent, p: Expr,
    v: VarId, key: string, round: Rounding, row: Row, id: nat, props: map<string, Value>, env: Env)
    requires Topological(nodes) && Descends(nodes, cursor, key0, preds, d)
    requires p in d.preds && p !in preds && RangeOrNull(p, v, key, round).Some?
    requires RangesStable(nodes, cursor, v, key, round)
    requires PathRow(nodes, cursor, d.scan, row, env).Some?
    requires Binds(row, v, id, props, {}, env) && row[v].NodeRef?
    ensures RangeOrNull(p, v, key, round).value.key == key
    ensures InRange(RangeOrNull(p, v, key, round).value, row, props, env)
    decreases cursor
  {
    DescentBelow(nodes, cursor, key0, preds, d);
    var op := nodes[cursor];
    if cursor == d.scan { return; }
    assert op.input in Inputs(op) && InputsBelow(op, cursor);
    if op.Projection? {
      PathInRange(nodes, op.input, ResolveAlias(key0, op.items), preds, d, p, v, key, round, row, id, props, env);
    } else if p == op.pred {
      FilterInRange(nodes, cursor, d.scan, v, key, round, row, id, props, env);
    } else {
      PathInRange(nodes, op.input, key0, preds + [op.pred], d, p, v, key, round, row, id, props, env);
    }
  }

  lemma FilterInRange(
    nodes: seq<LogicalOp>, cursor: nat, s: nat, v: VarId, key: string, round: Rounding,
    row: Row, id: nat, props: map<string, Value>, env: Env)
    requires Topological(nodes) && cursor < |nodes| && nodes[cursor].Filter? && cursor != s
    requires RangeOrNull(nodes[cursor].pred, v, key, round).Some?
    requires RangesStable(nodes, cursor, v, key, round)
    requires PathRow(nodes, cursor, s, row, env).Some?
    requires Binds(row, v, id, props, {}, env) && row[v].NodeRef?
    ensures RangeOrNull(nodes[cursor].pred, v, key, round).value.key == key
    ensures InRange(RangeOrNull(nodes[cursor].pred, v, key, round).value, row, props, env)
  {
    var op := nodes[cursor];
    assert op.input in Inputs(op) && InputsBelow(op, cursor);
    var b := RangeOrNull(op.pred, v, key, round).value;
    var m := PathRow(nodes, op.input, s, row, env).value;
    PathStable(nodes, op.input, s, v, BoundVars(b), row, env);
    assert v in m && m[v] == row[v];
    ConjunctsDecide(op.pred, m, env);
    var c := FirstBesideNullIn(ConjunctsOf(op.pred), v, key, round);
    BesideNullSound(c, v, key, round, m, id, props, {}, env);
    if !LookupKey(props, key).Null? { DescribedInRange(b, LookupKey(props, key), m, env); }
    RangeSameOn(b, m, row, env);
  }

  // ====================
  // The way from a sort down through filters and projections to the scan that may serve
  // it: what is asked of it, so that the sort's key means the same all the way.

  // ----- the way down -----

  /** Filters and plain projections lead down to a scan. */
  ghost predicate Reaches(nodes: seq<LogicalOp>, id: nat)
    requires Topological(nodes) && id < |nodes|
  {
    var op := nodes[id];
    if op.Filter? || (op.Projection? && !op.distinct) then
      assert op.input in Inputs(op) && InputsBelow(op, id);
      Reaches(nodes, op.input)
    else op.NodeScan? || op.NodeSeek?
  }

  /** And through at least one projection. */
  ghost predicate Layered(nodes: seq<LogicalOp>, id: nat)
    requires Topological(nodes) && id < |nodes|
  {
    var op := nodes[id];
    if op.Filter? then
      assert op.input in Inputs(op) && InputsBelow(op, id);
      Layered(nodes, op.input)
    else op.Projection? && Reaches(nodes, id)
  }

  /** The variable of the first key, if it is one or a property of one. */
  function LeadVars(keys: seq<SortKey>): set<VarId> { if keys == [] then {} else KeyVarSet(keys[0].expr) }

  function KeyVarSet(e: Expr): set<VarId> { match KeyVar(e) case None => {} case Some(v) => {v} }

  function ItemKeyVars(items: seq<Item>): set<VarId> {
    if items == [] then {} else KeyVarSet(items[0].expr) + ItemKeyVars(items[1..])
  }

  /** Outputs are distinct, none gives a scanned variable anew, and none is
      read as a key by another item. */
  ghost predicate ItemsAsked(items: seq<Item>, scanned: set<VarId>) {
    DistinctOutputs(items) && Renamed(items) !! scanned && Renamed(items) !! ItemKeyVars(items)
  }

  ghost predicate OneVar(e: Expr) { forall v, w | v in Vars(e) && w in Vars(e) :: v == w }

  /** No conjunct is an OR over several variables, so a range beside a null
      test compares with constants. */
  ghost predicate SoleOr(e: Expr) {
    if IsAnd(e) then SoleOr(e.lhs) && SoleOr(e.rhs) else IsOr(e) ==> OneVar(e)
  }

  /** A key over `scope` means the same from `id` down to the scan, and so
      does a range a filter on the way offers. */
  ghost predicate PathAsked(nodes: seq<LogicalOp>, id: nat, scope: set<VarId>, scanned: set<VarId>)
    requires Topological(nodes) && id < |nodes|
  {
    var op := nodes[id];
    if !op.Filter? && !op.Projection? then true
    else
      assert op.input in Inputs(op) && InputsBelow(op, id);
      if op.Filter? then
        && (Layered(nodes, op.input) ==> SoleOr(op.pred))
        && PathAsked(nodes, op.input, scope + Vars(op.pred) * scanned, scanned)
      else
        Reaches(nodes, id) ==>
          && ItemsAsked(op.items, scanned) && (op.includeExisting || scope <= Outputs(op.items))
          && PathAsked(nodes, op.input, (scope - Outputs(op.items)) + ItemKeyVars(op.items), scanned)
  }

  lemma {:induction false} PathAgrees(
    a: seq<LogicalOp>, b: seq<LogicalOp>, id: nat, scope: set<VarId>, scanned: set<VarId>)
    requires Topological(a) && Topological(b) && AgreeUpTo(a, b, id)
    ensures Reaches(a, id) == Reaches(b, id) && Layered(a, id) == Layered(b, id)
    ensures PathAsked(a, id, scope, scanned) == PathAsked(b, id, scope, scanned)
    decreases id
  {
    var op := a[id];
    if op.Filter? {
      assert op.input in Inputs(op) && InputsBelow(op, id);
      PathAgrees(a, b, op.input, scope + Vars(op.pred) * scanned, scanned);
    } else if op.Projection? {
      assert op.input in Inputs(op) && InputsBelow(op, id);
      PathAgrees(a, b, op.input, (scope - Outputs(op.items)) + ItemKeyVars(op.items), scanned);
    }
  }

  /** Less in scope is easier to mean the same. */
  lemma {:induction false} PathLess(
    nodes: seq<LogicalOp>, id: nat, less: set<VarId>, scope: set<VarId>, scanned: set<VarId>)
    requires Topological(nodes) && id < |nodes| && less <= scope && PathAsked(nodes, id, scope, scanned)
    ensures PathAsked(nodes, id, less, scanned)
    decreases id
  {
    var op := nodes[id];
    if op.Filter? {
      assert op.input in Inputs(op) && InputsBelow(op, id);
      PathLess(nodes, op.input, less + Vars(op.pred) * scanned, scope + Vars(op.pred) * scanned, scanned);
    } else if op.Projection? && Reaches(nodes, id) {
      assert op.input in Inputs(op) && InputsBelow(op, id);
      PathLess(nodes, op.input, (less - Outputs(op.items)) + ItemKeyVars(op.items),
               (scope - Outputs(op.items)) + ItemKeyVars(op.items), scanned);
    }
  }

  lemma {:induction false} LayeredReaches(nodes: seq<LogicalOp>, id: nat)
    requires Topological(nodes) && id < |nodes| && Layered(nodes, id)
    ensures Reaches(nodes, id)
    decreases id
  {
    if nodes[id].Filter? {
      assert nodes[id].input in Inputs(nodes[id]) && InputsBelow(nodes[id], id);
      LayeredReaches(nodes, nodes[id].input);
    }
  }

  /** With no projection on the way nothing can be renamed. */
  lemma {:induction false} FlatPath(nodes: seq<LogicalOp>, id: nat, scope: set<VarId>, scanned: set<VarId>)
    requires Topological(nodes) && id < |nodes| && !Layered(nodes, id)
    ensures PathAsked(nodes, id, scope, scanned)
    decreases id
  {
    if nodes[id].Filter? {
      assert nodes[id].input in Inputs(nodes[id]) && InputsBelow(nodes[id], id);
      FlatPath(nodes, nodes[id].input, scope + Vars(nodes[id].pred) * scanned, scanned);
    }
  }

  // ----- ranges of filters on the way -----

  lemma {:induction false} SoleConjunct(e: Expr, c: Expr)
    requires SoleOr(e) && c in ConjunctsOf(e) && IsOr(c)
    ensures OneVar(c)
  {
    if IsAnd(e) {
      if c in ConjunctsOf(e.lhs) { SoleConjunct(e.lhs, c); } else { SoleConjunct(e.rhs, c); }
    }
  }

  lemma {:induction false} VarsOfConjunct(e: Expr, c: Expr)
    requires c in ConjunctsOf(e)
    ensures Vars(c) <= Vars(e)
  {
    if IsAnd(e) {
      if c in ConjunctsOf(e.lhs) { VarsOfConjunct(e.lhs, c); } else { VarsOfConjunct(e.rhs, c); }
    }
  }

  lemma {:induction false} VarsOfDisjunct(e: Expr, d: Expr)
    requires d in DisjunctsOf(e)
    ensures Vars(d) <= Vars(e)
  {
    if IsOr(e) {
      if d in DisjunctsOf(e.lhs) { VarsOfDisjunct(e.lhs, d); } else { VarsOfDisjunct(e.rhs, d); }
    }
  }

  lemma PropertyVar(e: Expr, v: VarId)
    requires PropertyAccess(e, v).Some?
    ensures v in Vars(e)
  {
    assert Vars(e) == Vars(e.base);
  }

  lemma {:induction false} VisitVars(e: Expr, v: VarId)
    ensures forall visit | visit in VisitsOf(e, v) :: v in Vars(e) && v !in Vars(visit.value) && Vars(visit.value) <= Vars(e)
  {
    if IsAnd(e) {
      VisitVars(e.lhs, v);
      VisitVars(e.rhs, v);
    } else if e.Binary? {
      if PropertyAccess(e.lhs, v).Some? { PropertyVar(e.lhs, v); }
      if PropertyAccess(e.rhs, v).Some? { PropertyVar(e.rhs, v); }
    }
  }

  lemma {:induction false} NotNullWithin(ds: seq<Expr>, v: VarId, key: string)
    ensures forall d | d in NotNullTests(ds, v, key) :: d in ds
  {
    if ds != [] { NotNullWithin(ds[1..], v, key); }
  }

  /** The range of an OR over one variable reads no variable. */
  lemma BesideNullVars(c: Expr, v: VarId, key: string, round: Rounding)
    requires RangeBesideNull(c, v, key, round).Some? && OneVar(c)
    ensures v in Vars(c) && BoundVars(RangeBesideNull(c, v, key, round).value) == {}
  {
    var ds := DisjunctsOf(c);
    var d := NotNullTests(ds, v, key)[0];
    var visits := OnKey(VisitsOf(d, v), key);
    NotNullWithin(ds, v, key);
    assert d in NotNullTests(ds, v, key);
    VarsOfDisjunct(c, d);
    VisitVars(d, v);
    OnKeyWithin(VisitsOf(d, v), key);
    assert visits[0] in visits;
    forall w ensures w !in BoundVars(RangeBesideNull(c, v, key, round).value) {
      forall visit | visit in visits ensures w !in Vars(visit.value) { assert visit in VisitsOf(d, v); }
      AddAllUnread(NoBounds(key), visits, round, w);
    }
  }

  lemma RangeVars(pred: Expr, v: VarId, key: string, round: Rounding)
    requires RangeOrNull(pred, v, key, round).Some? && SoleOr(pred)
    ensures v in Vars(pred) && BoundVars(RangeOrNull(pred, v, key, round).value) == {}
  {
    var c := FirstBesideNullIn(ConjunctsOf(pred), v, key, round);
    VarsOfConjunct(pred, c);
    BesideNullIsOr(c, v, key, round);
    SoleConjunct(pred, c);
    BesideNullVars(c, v, key, round);
  }

  lemma BesideNullIsOr(c: Expr, v: VarId, key: string, round: Rounding)
    requires RangeBesideNull(c, v, key, round).Some?
    ensures IsOr(c)
  {
    assert |DisjunctsOf(c)| != 1;
  }

  // ----- down to the scan -----

  lemma {:induction false} KeyItem(items: seq<Item>, u: VarId, e: Expr)
    requires FirstItem(items, u) == Some(e)
    ensures KeyVarSet(e) <= ItemKeyVars(items)
  {
    if items[0].output != u { KeyItem(items[1..], u, e); }
  }

  lemma {:induction false} RenamedWithin(items: seq<Item>)
    ensures Renamed(items) <= Outputs(items)
  {
    if items != [] { RenamedWithin(items[1..]); }
  }

  /** A scanned variable in scope is passed on all the way. */
  lemma {:induction false} PathPasses(nodes: seq<LogicalOp>, id: nat, scope: set<VarId>, scanned: set<VarId>, v: VarId)
    requires Topological(nodes) && id < |nodes| && Reaches(nodes, id)
    requires PathAsked(nodes, id, scope, scanned) && v in scope && v in scanned
    ensures StableBelow(nodes, id, v, {})
    decreases id
  {
    var op := nodes[id];
    if op.Filter? {
      assert op.input in Inputs(op) && InputsBelow(op, id);
      PathPasses(nodes, op.input, scope + Vars(op.pred) * scanned, scanned, v);
    } else if op.Projection? {
      assert op.input in Inputs(op) && InputsBelow(op, id);
      if v in Outputs(op.items) {
        UnrenamedPasses(op.items, v);
        KeyItem(op.items, v, Variable(v));
      }
      PathPasses(nodes, op.input, (scope - Outputs(op.items)) + ItemKeyVars(op.items), scanned, v);
    }
  }

  lemma {:induction false} DescentReaches(nodes: seq<LogicalOp>, cursor: nat, key: Expr, preds: seq<Expr>, d: Descent)
    requires Topological(nodes) && Descends(nodes, cursor, key, preds, d)
    ensures Reaches(nodes, cursor)
    decreases cursor
  {
    var op := nodes[cursor];
    if op.Filter? {
      assert op.input in Inputs(op) && InputsBelow(op, cursor);
      DescentReaches(nodes, op.input, key, preds + [op.pred], d);
    } else if op.Projection? {
      assert op.input in Inputs(op) && InputsBelow(op, cursor);
      DescentReaches(nodes, op.input, ResolveAlias(key, op.items), preds, d);
    }
  }

  /** A key that is a property of a variable at the scan is a variable or that
      property all the way. */
  lemma {:induction false} KeyShape(
    nodes: seq<LogicalOp>, cursor: nat, key: Expr, preds: seq<Expr>, d: Descent, v: VarId, k: string)
    requires Topological(nodes) && Descends(nodes, cursor, key, preds, d) && d.key == Property(Variable(v), k)
    ensures key.Variable? || key == d.key
    decreases cursor
  {
    var op := nodes[cursor];
    if op.Filter? {
      assert op.input in Inputs(op) && InputsBelow(op, cursor);
      KeyShape(nodes, op.input, key, preds + [op.pred], d, v, k);
    } else if op.Projection? {
      assert op.input in Inputs(op) && InputsBelow(op, cursor);
      KeyShape(nodes, op.input, ResolveAlias(key, op.items), preds, d, v, k);
    }
  }

  /** One projection, from the shape of the key above and below it. */
  lemma ItemsClean(items: seq<Item>, keep: bool, key: Expr, v: VarId, k: string, scope: set<VarId>, scanned: set<VarId>)
    requires ItemsAsked(items, scanned) && (keep || scope <= Outputs(items)) && KeyVarSet(key) <= scope && v in scanned
    requires key.Variable? || key == Property(Variable(v), k)
    requires ResolveAlias(key, items).Variable? || ResolveAlias(key, items) == Property(Variable(v), k)
    ensures CleanItems(items, keep, key)
    ensures KeyVarSet(ResolveAlias(key, items)) <= (scope - Outputs(items)) + ItemKeyVars(items)
  {
    RenamedWithin(items);
    if key.Variable? {
      NoItem(items, key.v);
      if FirstItem(items, key.v).Some? { KeyItem(items, key.v, FirstItem(items, key.v).value); }
    } else if v in Outputs(items) {
      UnrenamedPasses(items, v);
      KeyItem(items, v, Variable(v));
    }
  }

  /** So where the way is as asked, it is clean. */
  lemma {:induction false} PathClean(
    nodes: seq<LogicalOp>, cursor: nat, key: Expr, preds: seq<Expr>, d: Descent, v: VarId, k: string, round: Rounding,
    scope: set<VarId>, scanned: set<VarId>)
    requires Topological(nodes) && Descends(nodes, cursor, key, preds, d) && d.key == Property(Variable(v), k)
    requires PathAsked(nodes, cursor, scope, scanned) && KeyVarSet(key) <= scope && v in scanned
    ensures CleanPath(nodes, cursor, key) && RangesStable(nodes, cursor, v, k, round)
    decreases cursor
  {
    var op := nodes[cursor];
    DescentReaches(nodes, cursor, key, preds, d);
    KeyShape(nodes, cursor, key, preds, d, v, k);
    if op.Filter? {
      var inner := scope + Vars(op.pred) * scanned;
      assert op.input in Inputs(op) && InputsBelow(op, cursor);
      PathClean(nodes, op.input, key, preds + [op.pred], d, v, k, round, inner, scanned);
      FilterStable(nodes, op.input, op.pred, inner, v, k, round, scanned);
    } else if op.Projection? {
      var inner := (scope - Outputs(op.items)) + ItemKeyVars(op.items);
      assert op.input in Inputs(op) && InputsBelow(op, cursor);
      KeyShape(nodes, op.input, ResolveAlias(key, op.items), preds, d, v, k);
      ItemsClean(op.items, op.includeExisting, key, v, k, scope, scanned);
      PathClean(nodes, op.input, ResolveAlias(key, op.items), preds, d, v, k, round, inner, scanned);
    }
  }

  lemma {:induction false} FlatStable(nodes: seq<LogicalOp>, id: nat, v: VarId, vars: set<VarId>)
    requires Topological(nodes) && id < |nodes| && Reaches(nodes, id) && !Layered(nodes, id)
    ensures StableBelow(nodes, id, v, vars)
    decreases id
  {
    if nodes[id].Filter? {
      assert nodes[id].input in Inputs(nodes[id]) && InputsBelow(nodes[id], id);
      FlatStable(nodes, nodes[id].input, v, vars);
    }
  }

  lemma FilterStable(
    nodes: seq<LogicalOp>, input: nat, pred: Expr, scope: set<VarId>, v: VarId, k: string, round: Rounding,
    scanned: set<VarId>)
    requires Topological(nodes) && input < |nodes| && Reaches(nodes, input) && v in scanned
    requires (Layered(nodes, input) ==> SoleOr(pred)) && PathAsked(nodes, input, scope, scanned)
    requires Vars(pred) * scanned <= scope
    ensures RangeOrNull(pred, v, k, round).Some? ==>
      StableBelow(nodes, input, v, BoundVars(RangeOrNull(pred, v, k, round).value))
  {
    if RangeOrNull(pred, v, k, round).Some? {
      if Layered(nodes, input) {
        RangeVars(pred, v, k, round);
        PathPasses(nodes, input, scope, scanned, v);
      } else {
        FlatStable(nodes, input, v, BoundVars(RangeOrNull(pred, v, k, round).value));
      }
    }
  }
}
