/** Logical operators in an arena of nodes, and the rows they produce. */
module Logical {
  import opened Values
  import opened Expressions
  import opened Sorting

  datatype Direction = Left | Right | Undirected

  /** Label groups: ANDed, the labels of one group ORed. */
  type Labels = seq<seq<string>>

  datatype PropertySeek = SeekEqual | SeekIn | SeekElement | SeekAnyElement

  datatype ExtraBound = ExtraBound(lower: bool, value: Expr, inclusive: bool)

  /** Bounds on one property; `None` is unbounded. */
  datatype Bounds = Bounds(
    key: string,
    lo: Option<Expr>, loInclusive: bool,
    hi: Option<Expr>, hiInclusive: bool,
    extra: seq<ExtraBound>)

  datatype PointTest =
    | WithinBox(lowerLeft: Expr, upperRight: Expr)
    | WithinDistance(center: Expr, maxDistance: Expr, inclusive: bool)

  /** What an index or id access path tests of a node or relationship. */
  datatype Access =
    | ById(ids: Expr, inList: bool)
    | ByProperty(key: string, value: Expr, seek: PropertySeek)
    | ByRange(bounds: Bounds, order: Option<SortDirection>, nulls: Option<NullsOrder>)
    | ByText(key: string, test: TextTest, query: Expr)
    | ByPoint(key: string, point: PointTest)

  datatype Item = Item(expr: Expr, output: VarId)
  datatype SortLimit = SortLimit(skip: Option<Expr>, limit: Expr)
  datatype UnionBranch = UnionBranch(all: bool, inner: nat)

  datatype LogicalOp =
    | Argument
    | NodeScan(source: Option<nat>, v: VarId, labels: Labels)
    | NodeSeek(source: Option<nat>, v: VarId, labels: Labels, access: Access)
    | RelSeek(source: Option<nat>, src: VarId, srcLabels: Labels, rel: VarId, dst: VarId,
              types: seq<string>, direction: Direction, access: Access)
    | Expand(input: nat, src: VarId, relVar: Option<VarId>, dst: VarId,
             types: seq<string>, direction: Direction, relProps: Option<Expr>)
    | Filter(input: nat, pred: Expr)
    | Projection(input: nat, distinct: bool, items: seq<Item>, includeExisting: bool)
    | Unwind(input: nat, expr: Expr, alias: VarId)
    | Aggregation(input: nat, groupBy: seq<Item>, aggregates: seq<Item>)
    | Sort(input: nat, keys: seq<SortKey>, topK: Option<nat>, bound: Option<SortLimit>,
           presorted: nat)
    | Limit(input: nat, skip: Option<Expr>, limit: Option<Expr>)
    | OptionalMatch(input: nat, inner: nat, newVars: seq<VarId>)
    | PathBuild(input: nat, output: VarId, nodeVars: seq<VarId>, relVars: seq<VarId>)
    | CallSubquery(input: nat, inner: nat, unions: seq<UnionBranch>, newVars: seq<VarId>)

  /** How one execution runs: the order in which a scan (given without its
      input) meets the ids of its candidates, how rows are grouped, and the
      order of values. */
  datatype Exec = Exec(
    env: Env,
    nodeOrder: LogicalOp -> seq<nat>,
    relOrder: LogicalOp -> seq<nat>,
    group: (seq<Item>, seq<Item>, seq<Row>) -> seq<Row>,
    le: Rank)

  // ----- the arena -----

  function OptionSeq(id: Option<nat>): seq<nat> {
    match id case None => [] case Some(i) => [i]
  }

  function BranchIds(unions: seq<UnionBranch>): (ids: seq<nat>)
    ensures |ids| == |unions|
    ensures forall i | 0 <= i < |unions| :: ids[i] == unions[i].inner
  {
    seq(|unions|, i requires 0 <= i < |unions| => unions[i].inner)
  }

  /** The nodes an operator reads, upstream first. */
  function Inputs(op: LogicalOp): seq<nat> {
    if op.Argument? then []
    else if op.NodeScan? || op.NodeSeek? || op.RelSeek? then OptionSeq(op.source)
    else if op.OptionalMatch? then [op.input, op.inner]
    else if op.CallSubquery? then [op.input, op.inner] + BranchIds(op.unions)
    else [op.input]
  }

  /** Every node reads only nodes before it. */
  ghost predicate Topological(nodes: seq<LogicalOp>) {
    forall i | 0 <= i < |nodes| :: InputsBelow(nodes[i], i)
  }

  ghost predicate InputsBelow(op: LogicalOp, bound: nat) {
    forall c | c in Inputs(op) :: c < bound
  }

  /** The node the operator pulls its rows from. */
  function Upstream(op: LogicalOp): (up: Option<nat>)
    ensures up.Some? ==> up.value in Inputs(op)
  {
    if op.Argument? then None
    else if op.NodeScan? || op.NodeSeek? || op.RelSeek? then op.source
    else Some(op.input)
  }

  // ----- graph access -----

  function Ids(n: nat): (ids: seq<nat>)
    ensures |ids| == n && forall i | 0 <= i < n :: ids[i] == i
  {
    seq(n, i => i)
  }

  predicate LabelsMatch(labels: Labels, have: set<string>) {
    forall group | group in labels :: exists l | l in group :: l in have
  }

  predicate NodeOk(g: Graph, id: nat, labels: Labels) {
    g.HasNode(id) && LabelsMatch(labels, g.nodes[id].value.labels)
  }

  predicate TypeOk(types: seq<string>, typ: string) { types == [] || typ in types }

  /** Relationships at `n`, each with the node at its other end: outgoing,
      then incoming; an undirected walk meets a self-loop once. */
  function ExpandFrom(g: Graph, n: nat, dir: Direction, types: seq<string>): seq<(nat, nat)> {
    (if dir.Left? then [] else Outgoing(g, n, types, |g.rels|))
    + (if dir.Right? then [] else Incoming(g, n, types, dir.Undirected?, |g.rels|))
  }

  function Outgoing(g: Graph, n: nat, types: seq<string>, below: nat): seq<(nat, nat)>
    requires below <= |g.rels|
  {
    if below == 0 then []
    else
      var r := below - 1;
      Outgoing(g, n, types, r)
      + if g.rels[r].Some? && TypeOk(types, g.rels[r].value.typ) && g.rels[r].value.src == n
        then [(r, g.rels[r].value.dst)] else []
  }

  function Incoming(g: Graph, n: nat, types: seq<string>, skipLoops: bool, below: nat): seq<(nat, nat)>
    requires below <= |g.rels|
  {
    if below == 0 then []
    else
      var r := below - 1;
      Incoming(g, n, types, skipLoops, r)
      + if g.rels[r].Some? && TypeOk(types, g.rels[r].value.typ) && g.rels[r].value.dst == n
           && !(skipLoops && g.rels[r].value.src == n)
        then [(r, g.rels[r].value.src)] else []
  }

  // ----- access tests -----

  predicate IdSought(value: Value, inList: bool, id: nat) {
    if inList then value.List? && Int(id) in value.items else value == Int(id)
  }

  predicate ListHolds(stored: Option<Value>, wanted: Value) {
    !wanted.Null? && stored.Some? && stored.value.List? && wanted in stored.value.items
  }

  predicate PropertySought(stored: Option<Value>, wanted: Value, seek: PropertySeek) {
    match seek
    case SeekEqual => stored == Some(wanted)
    case SeekIn =>
      !wanted.Null?
      && (wanted.List? ==> stored.Some? && !stored.value.Null? && stored.value in wanted.items)
    case SeekElement => ListHolds(stored, wanted)
    case SeekAnyElement =>
      !wanted.Null?
      && (wanted.List? ==> exists item | item in wanted.items :: ListHolds(stored, item))
  }

  function Stored(props: map<string, Value>, key: string): Option<Value> {
    if key in props then Some(props[key]) else None
  }

  /** A range per row: the scan's own bounds, tightened by the extra ones
      that order against them; a null upper bound is none. */
  datatype RangeValues = RangeValues(
    lo: Option<Value>, loInclusive: bool, hi: Option<Value>, hiInclusive: bool)

  function RangeOf(b: Bounds, row: Row, env: Env): RangeValues {
    var lo := if b.lo.Some? then Some(Eval(b.lo.value, row, env)) else None;
    var hi := if b.hi.Some? then Some(Eval(b.hi.value, row, env)) else None;
    var hi' := if hi == Some(Null) then None else hi;
    Tighten(RangeValues(lo, b.loInclusive, hi', b.hiInclusive), b.extra, row, env)
  }

  function Tighten(r: RangeValues, extra: seq<ExtraBound>, row: Row, env: Env): RangeValues
    decreases |extra|
  {
    if extra == [] then r
    else Tighten(TightenOne(r, extra[0], Eval(extra[0].value, row, env)), extra[1..], row, env)
  }

  function TightenOne(r: RangeValues, b: ExtraBound, value: Value): RangeValues {
    if b.lower then
      if Takes(r.lo, r.loInclusive, value, b.inclusive, Greater)
      then r.(lo := Some(value), loInclusive := b.inclusive) else r
    else if value.Null? then r
    else
      if Takes(r.hi, r.hiInclusive, value, b.inclusive, Less)
      then r.(hi := Some(value), hiInclusive := b.inclusive) else r
  }

  predicate Takes(
    current: Option<Value>, currentInclusive: bool, value: Value, inclusive: bool, tighter: Ordering)
  {
    if current.None? then true
    else match Compare(value, current.value)
      case None => false
      case Some(Equal) => currentInclusive && !inclusive
      case Some(o) => o == tighter
  }

  predicate LowerHolds(x: Value, lo: Option<Value>, inclusive: bool) {
    lo.None? || match Compare(x, lo.value)
                case None => false
                case Some(o) => o.Greater? || (o.Equal? && inclusive)
  }

  predicate UpperHolds(x: Value, hi: Option<Value>, inclusive: bool) {
    hi.None? || match Compare(x, hi.value)
                case None => false
                case Some(o) => o.Less? || (o.Equal? && inclusive)
  }

  predicate RangeHolds(x: Value, r: RangeValues) {
    LowerHolds(x, r.lo, r.loInclusive) && UpperHolds(x, r.hi, r.hiInclusive)
  }

  predicate PointHolds(stored: Value, point: PointTest, row: Row, env: Env) {
    match point
    case WithinBox(ll, ur) =>
      env.call(WITHIN_BBOX, [stored, Eval(ll, row, env), Eval(ur, row, env)]).Truthy()
    case WithinDistance(center, d, inclusive) =>
      UpperHolds(env.call(DISTANCE, [stored, Eval(center, row, env)]),
                 Some(Eval(d, row, env)), inclusive)
  }

  /** Whether an entity with this id and these properties is among those the
      access path finds for the row. */
  predicate AccessFinds(access: Access, id: nat, props: map<string, Value>, row: Row, env: Env) {
    match access
    case ById(ids, inList) => IdSought(Eval(ids, row, env), inList, id)
    case ByProperty(key, value, seek) =>
      PropertySought(Stored(props, key), Eval(value, row, env), seek)
    case ByRange(b, _, nulls) =>
      (nulls.Some? && LookupKey(props, b.key).Null?)
      || (b.key in props && RangeHolds(props[b.key], RangeOf(b, row, env)))
    case ByText(key, test, query) =>
      key in props && props[key].Text? && Eval(query, row, env).Text?
      && TextHolds(test, props[key].text, Eval(query, row, env).text)
    case ByPoint(key, point) => PointHolds(LookupKey(props, key), point, row, env)
  }

  predicate NodeFound(op: LogicalOp, id: nat, row: Row, env: Env)
    requires op.NodeScan? || op.NodeSeek?
  {
    NodeOk(env.graph, id, op.labels)
    && (op.NodeSeek? ==> AccessFinds(op.access, id, env.graph.nodes[id].value.props, row, env))
  }

  // ----- one row through one operator -----

  function ScanRows(op: LogicalOp, ids: seq<nat>, row: Row, env: Env): seq<Row>
    requires op.NodeScan? || op.NodeSeek?
  {
    if ids == [] then []
    else
      var rest := ScanRows(op, ids[1..], row, env);
      if NodeFound(op, ids[0], row, env) then [row[op.v := NodeRef(ids[0])]] + rest else rest
  }

  /** `v` is unbound or already bound to `value`. */
  predicate Free1(row: Row, v: VarId, value: Value) { v in row ==> row[v] == value }

  function BindOne(row: Row, v: VarId, value: Value): Row {
    if v in row then row else row[v := value]
  }

  predicate RelPropsOk(g: Graph, r: nat, relProps: Option<Expr>, row: Row, env: Env) {
    relProps.None? ||
    (var wanted := Eval(relProps.value, row, env);
     wanted.Map? && g.HasRel(r)
     && forall k | k in wanted.entries :: Stored(g.rels[r].value.props, k) == Some(wanted.entries[k]))
  }

  /** The row an expansion over relationship `r` to node `n` yields, if any. */
  function ExpandRow(op: LogicalOp, r: nat, n: nat, row: Row, env: Env): seq<Row>
    requires op.Expand?
  {
    if RelPropsOk(env.graph, r, op.relProps, row, env)
       && Free1(row, op.dst, NodeRef(n))
       && (op.relVar.Some? ==> Free1(row, op.relVar.value, RelRef(r)))
    then
      var row' := BindOne(row, op.dst, NodeRef(n));
      [if op.relVar.Some? then BindOne(row', op.relVar.value, RelRef(r)) else row']
    else []
  }

  function ExpandRows(op: LogicalOp, edges: seq<(nat, nat)>, row: Row, env: Env): seq<Row>
    requires op.Expand?
  {
    if edges == [] then []
    else ExpandRow(op, edges[0].0, edges[0].1, row, env) + ExpandRows(op, edges[1..], row, env)
  }

  function OrientedRow(op: LogicalOp, r: nat, from: nat, to: nat, row: Row, env: Env): seq<Row>
    requires op.RelSeek?
  {
    if !Free1(row, op.src, NodeRef(from)) then []
    else
      var row1 := BindOne(row, op.src, NodeRef(from));
      if !Free1(row1, op.rel, RelRef(r)) then []
      else
        var row2 := BindOne(row1, op.rel, RelRef(r));
        if !Free1(row2, op.dst, NodeRef(to)) || !NodeOk(env.graph, from, op.srcLabels) then []
        else [BindOne(row2, op.dst, NodeRef(to))]
  }

  /** Both orientations of an undirected pattern, a self-loop once. */
  function RelRows(op: LogicalOp, r: nat, row: Row, env: Env): seq<Row>
    requires op.RelSeek?
  {
    var g := env.graph;
    if !g.HasRel(r) then []
    else
      var rec := g.rels[r].value;
      if !TypeOk(op.types, rec.typ) || !AccessFinds(op.access, r, rec.props, row, env) then []
      else match op.direction
        case Right => OrientedRow(op, r, rec.src, rec.dst, row, env)
        case Left => OrientedRow(op, r, rec.dst, rec.src, row, env)
        case Undirected =>
          OrientedRow(op, r, rec.src, rec.dst, row, env)
          + if rec.src == rec.dst then [] else OrientedRow(op, r, rec.dst, rec.src, row, env)
  }

  function RelSeekRows(op: LogicalOp, rels: seq<nat>, row: Row, env: Env): seq<Row>
    requires op.RelSeek?
  {
    if rels == [] then []
    else RelRows(op, rels[0], row, env) + RelSeekRows(op, rels[1..], row, env)
  }

  function UnwindRows(row: Row, alias: VarId, values: seq<Value>): seq<Row> {
    if values == [] then [] else [row[alias := values[0]]] + UnwindRows(row, alias, values[1..])
  }

  /** Each item sees the outputs of the items before it. */
  function ProjectOver(items: seq<Item>, row: Row, env: Env): Row
    decreases |items|
  {
    if items == [] then row
    else ProjectOver(items[1..], row[items[0].output := Eval(items[0].expr, row, env)], env)
  }

  /** Each item sees the input row only. */
  function ProjectOnto(items: seq<Item>, row: Row, out: Row, env: Env): Row
    decreases |items|
  {
    if items == [] then out
    else ProjectOnto(items[1..], row, out[items[0].output := Eval(items[0].expr, row, env)], env)
  }

  function ProjectRow(items: seq<Item>, includeExisting: bool, row: Row, env: Env): Row {
    if includeExisting then ProjectOver(items, row, env) else ProjectOnto(items, row, map[], env)
  }

  function LookupAll(row: Row, vars: seq<VarId>): seq<Value> {
    seq(|vars|, i requires 0 <= i < |vars| => Lookup(row, vars[i]))
  }

  /** The operator without its place in the arena. */
  function Detached(op: LogicalOp): LogicalOp {
    match op
    case NodeScan(_, v, labels) => NodeScan(None, v, labels)
    case NodeSeek(_, v, labels, access) => NodeSeek(None, v, labels, access)
    case RelSeek(_, src, srcLabels, rel, dst, types, dir, access) =>
      RelSeek(None, src, srcLabels, rel, dst, types, dir, access)
    case Expand(_, src, rel, dst, types, dir, props) => Expand(0, src, rel, dst, types, dir, props)
    case Filter(_, pred) => Filter(0, pred)
    case Projection(_, distinct, items, keep) => Projection(0, distinct, items, keep)
    case Unwind(_, expr, alias) => Unwind(0, expr, alias)
    case PathBuild(_, output, ns, rs) => PathBuild(0, output, ns, rs)
    case _ => op
  }

  predicate RowWise(op: LogicalOp) {
    op.NodeScan? || op.NodeSeek? || op.RelSeek? || op.Expand? || op.Filter?
    || (op.Projection? && !op.distinct) || op.Unwind? || op.PathBuild?
  }

  /** The rows one input row becomes. */
  function Step(op: LogicalOp, row: Row, x: Exec): seq<Row> {
    if op.NodeScan? || op.NodeSeek? then StepScan(op, row, x)
    else if op.RelSeek? then RelSeekRows(op, x.relOrder(Detached(op)), row, x.env)
    else if op.Expand? then
      if op.src in row && row[op.src].NodeRef?
      then ExpandRows(op, ExpandFrom(x.env.graph, row[op.src].node, op.direction, op.types), row, x.env)
      else []
    else if op.Filter? then
      if Eval(op.pred, row, x.env).Truthy() then [row] else []
    else if op.Projection? then [ProjectRow(op.items, op.includeExisting, row, x.env)]
    else if op.Unwind? then
      var value := Eval(op.expr, row, x.env);
      if value.List? then UnwindRows(row, op.alias, value.items)
      else if value.Null? then []
      else [row[op.alias := value]]
    else if op.PathBuild? then [row[op.output := Path(LookupAll(row, op.nodeVars), LookupAll(row, op.relVars))]]
    else []
  }

  /** UNWIND gives the row once for each element of a list, in turn. */
  lemma {:induction false} UnwindIs(row: Row, alias: VarId, values: seq<Value>)
    ensures |UnwindRows(row, alias, values)| == |values|
    ensures forall i | 0 <= i < |values| :: UnwindRows(row, alias, values)[i] == row[alias := values[i]]
  {
    if values != [] { UnwindIs(row, alias, values[1..]); }
  }

  /** A scan re-checks a variable the row already binds. */
  function StepScan(op: LogicalOp, row: Row, x: Exec): seq<Row>
    requires op.NodeScan? || op.NodeSeek?
  {
    if op.v in row then
      if row[op.v].NodeRef? && NodeFound(op, row[op.v].node, row, x.env) then [row] else []
    else ScanRows(op, x.nodeOrder(Detached(op)), row, x.env)
  }

  function StepAll(op: LogicalOp, rows: seq<Row>, x: Exec): seq<Row> {
    if rows == [] then [] else Step(op, rows[0], x) + StepAll(op, rows[1..], x)
  }

  /** The first of each set of equal rows. */
  function Dedup(rows: seq<Row>, seen: set<Row>): seq<Row> {
    if rows == [] then []
    else if rows[0] in seen then Dedup(rows[1..], seen)
    else [rows[0]] + Dedup(rows[1..], seen + {rows[0]})
  }

  // ----- row counts -----

  /** A SKIP or LIMIT expression, evaluated on no row; an invalid count is an
      error of the statement and reads as 0 here. */
  function Count(e: Expr, env: Env): nat {
    var v := Eval(e, map[], env);
    if v.Int? && v.number >= 0 then v.number else 0
  }

  function Drop(rows: seq<Row>, n: nat): seq<Row> { if n <= |rows| then rows[n..] else [] }
  function Take(rows: seq<Row>, n: nat): seq<Row> { if n <= |rows| then rows[..n] else rows }

  function LimitRows(rows: seq<Row>, skip: Option<Expr>, limit: Option<Expr>, env: Env): seq<Row> {
    var kept := Drop(rows, if skip.Some? then Count(skip.value, env) else 0);
    if limit.Some? then Take(kept, Count(limit.value, env)) else kept
  }

  /** SKIP and LIMIT leave a run of the rows: those after the first `skip`, at
      most `limit` of them. */
  lemma LimitIs(rows: seq<Row>, skip: Option<Expr>, limit: Option<Expr>, env: Env)
    ensures var out, s := LimitRows(rows, skip, limit, env), if skip.Some? then Count(skip.value, env) else 0;
      && (forall i | 0 <= i < |out| :: s + i < |rows| && out[i] == rows[s + i])
      && (s + |out| < |rows| ==> limit.Some? && |out| == Count(limit.value, env))
      && (limit.Some? ==> |out| <= Count(limit.value, env))
  {}

  /** The row bound a sort applies: the smaller of the static one and the
      parent LIMIT's expressions, evaluated. */
  function SortBound(topK: Option<nat>, bound: Option<SortLimit>, env: Env): Option<nat> {
    var evaluated :=
      if bound.None? || !Eval(bound.value.limit, map[], env).Int? then None
      else Some(Count(bound.value.limit, env)
                + if bound.value.skip.Some? then Count(bound.value.skip.value, env) else 0);
    if topK.None? then evaluated
    else if evaluated.None? then topK
    else Some(if topK.value < evaluated.value then topK.value else evaluated.value)
  }

  function SortRows(op: LogicalOp, rows: seq<Row>, x: Exec): seq<Row>
    requires op.Sort?
  {
    var sorted :=
      if 0 < op.presorted <= |op.keys| then PartialSort(op.keys, op.presorted, rows, x.env, x.le)
      else StableSort(op.keys, rows, x.env, x.le);
    var bound := SortBound(op.topK, op.bound, x.env);
    if bound.None? then sorted else Take(sorted, bound.value)
  }

  // ----- denotation -----

  /** All input rows through an operator that runs no sub-plan. */
  function Apply(op: LogicalOp, rows: seq<Row>, x: Exec): seq<Row> {
    if RowWise(op) then StepAll(op, rows, x)
    else if op.Projection? then Dedup(StepAll(op, rows, x), {})
    else if op.Aggregation? then x.group(op.groupBy, op.aggregates, rows)
    else if op.Sort? then SortRows(op, rows, x)
    else if op.Limit? then LimitRows(rows, op.skip, op.limit, x.env)
    else rows
  }

  ghost predicate Compatible(outer: Row, inner: Row) {
    forall v | v in outer && v in inner :: outer[v] == inner[v]
  }

  ghost function MergeAll(outer: Row, inners: seq<Row>, check: bool): seq<Row> {
    if inners == [] then []
    else
      var rest := MergeAll(outer, inners[1..], check);
      if check && !Compatible(outer, inners[0]) then rest else [inners[0] + outer] + rest
  }

  function NullExtend(row: Row, vars: seq<VarId>): Row
    decreases |vars|
  {
    if vars == [] then row else NullExtend(BindOne(row, vars[0], Null), vars[1..])
  }

  /** `f` of each element, joined in order. */
  function FlatMap<A, B>(f: A -> seq<B>, s: seq<A>): seq<B> {
    if s == [] then [] else f(s[0]) + FlatMap(f, s[1..])
  }

  /** The rows node `id` produces when the innermost Argument holds `arg`. */
  ghost function Denote(nodes: seq<LogicalOp>, id: nat, x: Exec, arg: Row): seq<Row>
    requires Topological(nodes) && id < |nodes|
    decreases id, 0
  {
    var op := nodes[id];
    assert InputsBelow(op, id);
    var rows := if Upstream(op).Some? then Denote(nodes, Upstream(op).value, x, arg) else [arg];
    if op.OptionalMatch? then
      assert op.inner in Inputs(op);
      FlatMap((row: Row) => OptionalRows(row, Denote(nodes, op.inner, x, row), op.newVars), rows)
    else if op.CallSubquery? then
      assert op.inner in Inputs(op);
      assert forall b | 0 <= b < |op.unions| :: BranchIds(op.unions)[b] in Inputs(op);
      FlatMap((row: Row) =>
        CallRows(row, Denote(nodes, op.inner, x, row), UnionRows(nodes, id, op.unions, row, x), op.unions),
        rows)
    else Apply(op, rows, x)
  }

  /** An outer row with its matches, or null-extended when it has none. */
  ghost function OptionalRows(row: Row, inners: seq<Row>, newVars: seq<VarId>): seq<Row> {
    var matches := MergeAll(row, inners, true);
    if matches == [] then [NullExtend(row, newVars)] else matches
  }

  /** An outer row with each row of the subquery body; plain UNION drops
      rows another branch produced. */
  ghost function CallRows(row: Row, first: seq<Row>, others: seq<Row>, unions: seq<UnionBranch>)
    : seq<Row>
  {
    var distinct := exists b | 0 <= b < |unions| :: !unions[b].all;
    MergeAll(row, if distinct then Dedup(first + others, {}) else first + others, false)
  }

  ghost function UnionRows(
    nodes: seq<LogicalOp>, below: nat, unions: seq<UnionBranch>, arg: Row, x: Exec): seq<Row>
    requires Topological(nodes) && 0 < below <= |nodes|
    requires forall b | 0 <= b < |unions| :: unions[b].inner < below
    decreases below - 1, 1 + |unions|
  {
    if unions == [] then []
    else Denote(nodes, unions[0].inner, x, arg) + UnionRows(nodes, below, unions[1..], arg, x)
  }

  // ====================
  // The columns of a projection.

  function Outputs(items: seq<Item>): set<VarId> {
    if items == [] then {} else {items[0].output} + Outputs(items[1..])
  }

  predicate DistinctOutputs(items: seq<Item>) {
    items == [] || (items[0].output !in Outputs(items[1..]) && DistinctOutputs(items[1..]))
  }

  function FirstItem(items: seq<Item>, v: VarId): Option<Expr> {
    if items == [] then None
    else if items[0].output == v then Some(items[0].expr)
    else FirstItem(items[1..], v)
  }

  lemma {:induction false} ProjectOntoKeys(items: seq<Item>, row: Row, out: Row, env: Env)
    ensures ProjectOnto(items, row, out, env).Keys == out.Keys + Outputs(items)
    decreases |items|
  {
    if items != [] {
      ProjectOntoKeys(items[1..], row, out[items[0].output := Eval(items[0].expr, row, env)], env);
    }
  }

  lemma {:induction false} OntoOther(items: seq<Item>, row: Row, out: Row, u: VarId, env: Env)
    requires u !in Outputs(items)
    ensures Lookup(ProjectOnto(items, row, out, env), u) == Lookup(out, u)
    decreases |items|
  {
    if items != [] {
      OntoOther(items[1..], row, out[items[0].output := Eval(items[0].expr, row, env)], u, env);
    }
  }

  lemma {:induction false} OntoOutput(items: seq<Item>, row: Row, out: Row, u: VarId, env: Env)
    requires DistinctOutputs(items) && u in Outputs(items)
    ensures FirstItem(items, u).Some?
    ensures Lookup(ProjectOnto(items, row, out, env), u) == Eval(FirstItem(items, u).value, row, env)
    decreases |items|
  {
    var next := out[items[0].output := Eval(items[0].expr, row, env)];
    if items[0].output == u {
      OntoOther(items[1..], row, next, u, env);
    } else {
      OntoOutput(items[1..], row, next, u, env);
    }
  }
}
