/** Whole queries: clause after clause onto the arena, with sub-plans for
    OPTIONAL MATCH and CALL. */
module Queries {
  import opened Values
  import opened Expressions
  import opened Conjuncts
  import opened Logical
  import opened Arena
  import opened Planning
  import opened Clauses
  import opened Placement

  ghost predicate ForestOf(nodes: seq<LogicalOp>) {
    Topological(nodes) && Forest(nodes, Below(|nodes|))
  }

  ghost predicate NotRead(nodes: seq<LogicalOp>, id: nat) {
    forall k | 0 <= k < |nodes| :: id !in Inputs(nodes[k])
  }

  /** `b` is `a` with more nodes on top of `input`, up to `node`: still a
      forest, `node` read by nothing, and nothing else of `a` newly read. */
  ghost predicate Grown(a: seq<LogicalOp>, input: Option<nat>, b: seq<LogicalOp>, node: nat) {
    && |a| <= |b| && b[..|a|] == a && ForestOf(b) && node < |b| && NotRead(b, node)
    && (forall u: nat | u < |a| && NotRead(a, u) && Some(u) != input && u != node :: NotRead(b, u))
    && (node < |a| ==> input == Some(node))
  }

  /** Where planning may start: at an input nothing reads. */
  ghost predicate Start(nodes: seq<LogicalOp>, input: Option<nat>) {
    ForestOf(nodes) && (input.Some? ==> input.value < |nodes| && NotRead(nodes, input.value))
  }

  /** Pushing an operator over inputs nothing reads, its sub-plans included. */
  lemma PushForest(nodes: seq<LogicalOp>, op: LogicalOp)
    requires ForestOf(nodes) && NoDup(Inputs(op))
    requires forall c: nat | c in Inputs(op) :: c < |nodes| && NotRead(nodes, c)
    ensures ForestOf(nodes + [op]) && NotRead(nodes + [op], |nodes|)
    ensures forall u: nat | u < |nodes| && NotRead(nodes, u) && u !in Inputs(op) :: NotRead(nodes + [op], u)
  {
    var out := nodes + [op];
    PushTopological(nodes, op);
    forall k | 0 <= k < |out| ensures |nodes| !in Inputs(out[k]) { assert InputsBelow(out[k], k); }
    forall i: nat, j: nat, c | i < j < |out| && c in Inputs(out[i]) ensures c !in Inputs(out[j]) {
      if j < |nodes| { assert i in Below(|nodes|) && j in Below(|nodes|); }
    }
    forall i: nat | i < |out| ensures NoDup(Inputs(out[i])) {
      if i < |nodes| { assert i in Below(|nodes|); }
    }
  }

  lemma Grow(nodes: seq<LogicalOp>, input: Option<nat>, op: LogicalOp)
    requires Start(nodes, input) && Inputs(op) == OptionSeq(input)
    ensures Grown(nodes, input, nodes + [op], |nodes|)
  {
    PushForest(nodes, op);
  }

  lemma GrowTwice(
    a: seq<LogicalOp>, input: Option<nat>, b: seq<LogicalOp>, m: nat, c: seq<LogicalOp>, n: nat)
    requires Grown(a, input, b, m) && Grown(b, Some(m), c, n)
    ensures Grown(a, input, c, n)
  {
    assert c[..|a|] == c[..|b|][..|a|];
    forall u: nat | u < |a| && NotRead(a, u) && Some(u) != input && u != n ensures NotRead(c, u) {
      assert NotRead(b, u);
    }
  }

  lemma Stay(nodes: seq<LogicalOp>, node: nat)
    requires Start(nodes, Some(node))
    ensures Grown(nodes, Some(node), nodes, node)
  {}

  // ----- the pattern planner -----

  lemma AttachGrows(p: Planned, checks: seq<Expr>)
    requires Start(p.st.nodes, Some(p.node))
    ensures var q := AttachReady(p, checks); Grown(p.st.nodes, Some(p.node), q.st.nodes, q.node)
  {
    match AndAll(checks + Exprs(Ready(p.st.pending, p.st.available)))
    case None => Stay(p.st.nodes, p.node);
    case Some(pred) => Grow(p.st.nodes, Some(p.node), Filter(p.node, pred));
  }

  lemma BindAttachGrows(st: State, input: Option<nat>, op: LogicalOp, binds: set<VarId>, checks: seq<Expr>)
    requires Start(st.nodes, input) && Inputs(op) == OptionSeq(input)
    ensures var q := AttachReady(Bind(st, op, binds), checks); Grown(st.nodes, input, q.st.nodes, q.node)
  {
    var p := Bind(st, op, binds);
    Grow(st.nodes, input, op);
    AttachGrows(p, checks);
    var q := AttachReady(p, checks);
    GrowTwice(st.nodes, input, p.st.nodes, p.node, q.st.nodes, q.node);
  }

  lemma {:induction false} StepsGrow(p: Planned, src: VarId, steps: seq<ChainStep>)
    requires Start(p.st.nodes, Some(p.node))
    ensures var q := PlanSteps(p, src, steps); Grown(p.st.nodes, Some(p.node), q.st.nodes, q.node)
    decreases |steps|
  {
    if steps == [] {
      Stay(p.st.nodes, p.node);
    } else {
      var s, m := steps[0], PlanStep(p, src, steps[0]);
      var expand := Expand(p.node, src, s.rel.v, s.node.v, s.rel.types, s.rel.direction, s.rel.props);
      BindAttachGrows(p.st, Some(p.node), expand, StepVars(s), StepChecks(s));
      StepsGrow(m, s.node.v, steps[1..]);
      var q := PlanSteps(p, src, steps);
      GrowTwice(p.st.nodes, Some(p.node), m.st.nodes, m.node, q.st.nodes, q.node);
    }
  }

  lemma ChainGrows(st: State, input: Option<nat>, c: Chain)
    requires Start(st.nodes, input)
    ensures var q := PlanChain(st, input, c); Grown(st.nodes, input, q.st.nodes, q.node)
  {
    var head := PlanNode(st, input, c.head);
    BindAttachGrows(st, input, NodeScan(input, c.head.v, c.head.labels), {c.head.v}, NodeChecks(c.head));
    StepsGrow(head, c.head.v, c.steps);
    var q := PlanChain(st, input, c);
    GrowTwice(st.nodes, input, head.st.nodes, head.node, q.st.nodes, q.node);
  }

  lemma PathGrows(chain: Planned, part: Part)
    requires Start(chain.st.nodes, Some(chain.node)) && part.binding.Some?
    ensures var build := PathBuild(chain.node, part.binding.value, NodeVarsOf(part.chain), RelVarsOf(part.chain.steps));
      var q := AttachReady(Bind(chain.st, build, {part.binding.value}), []);
      Grown(chain.st.nodes, Some(chain.node), q.st.nodes, q.node)
  {
    var build := PathBuild(chain.node, part.binding.value, NodeVarsOf(part.chain), RelVarsOf(part.chain.steps));
    BindAttachGrows(chain.st, Some(chain.node), build, {part.binding.value}, []);
  }

  lemma PartGrows(st: State, input: Option<nat>, part: Part)
    requires Start(st.nodes, input)
    ensures var q := PlanPart(st, input, part); Grown(st.nodes, input, q.st.nodes, q.node)
  {
    var chain, q := PlanChain(st, input, Walked(part)), PlanPart(st, input, part);
    ChainGrows(st, input, Walked(part));
    if part.binding.Some? {
      assert Start(chain.st.nodes, Some(chain.node));
      PathGrows(chain, part);
      assert Grown(chain.st.nodes, Some(chain.node), q.st.nodes, q.node);
      GrowTwice(st.nodes, input, chain.st.nodes, chain.node, q.st.nodes, q.node);
    } else {
      assert q == chain;
    }
  }

  lemma {:induction false} PartsGrow(p: Planned, parts: seq<Part>)
    requires Start(p.st.nodes, Some(p.node))
    ensures var q := PlanParts(p, parts); Grown(p.st.nodes, Some(p.node), q.st.nodes, q.node)
    decreases |parts|
  {
    if parts == [] {
      Stay(p.st.nodes, p.node);
    } else {
      var m := PlanPart(p.st, Some(p.node), parts[0]);
      PartGrows(p.st, Some(p.node), parts[0]);
      PartsGrow(m, parts[1..]);
      var q := PlanParts(p, parts);
      GrowTwice(p.st.nodes, Some(p.node), m.st.nodes, m.node, q.st.nodes, q.node);
    }
  }

  lemma PatternGrows(st: State, input: Option<nat>, parts: seq<Part>)
    requires Start(st.nodes, input)
    ensures var q := PlanPattern(st, input, parts); Grown(st.nodes, input, q.st.nodes, q.node)
  {
    if parts == [] {
      if input.Some? { Stay(st.nodes, input.value); } else { Grow(st.nodes, None, Argument); }
    } else {
      var m := PlanPart(st, input, parts[0]);
      PartGrows(st, input, parts[0]);
      PartsGrow(m, parts[1..]);
      var q := PlanPattern(st, input, parts);
      GrowTwice(st.nodes, input, m.st.nodes, m.node, q.st.nodes, q.node);
    }
  }

  /** Planning a MATCH grows the forest by a chain on its input. */
  lemma MatchGrows(
    nodes: seq<LogicalOp>, input: Option<nat>, parts: seq<Part>, where: Option<Expr>)
    requires Start(nodes, input)
    ensures var q := PlanMatch(nodes, input, parts, where); Grown(nodes, input, q.st.nodes, q.node)
  {
    var m := PlanWithWhere(nodes, input, parts, where);
    PatternGrows(Initial(nodes, ToPlace(ConjunctsOfWhere(where), 0, PatternVars(parts))), input, parts);
    match AndAll(m.residual)
    case None =>
    case Some(pred) =>
      Grow(m.planned.st.nodes, Some(m.planned.node), Filter(m.planned.node, pred));
      var q := PlanMatch(nodes, input, parts, where);
      GrowTwice(nodes, input, m.planned.st.nodes, m.planned.node, q.st.nodes, q.node);
  }

  // ----- clauses -----

  /** Planning a WITH or RETURN does too. */
  lemma {:induction false} ClauseGrows(nodes: seq<LogicalOp>, input: nat, ops: seq<LogicalOp>)
    requires Start(nodes, Some(input)) && forall op | op in ops :: ClauseOp(op)
    ensures var (out, id) := PushAll(nodes, input, ops); Grown(nodes, Some(input), out, id)
    decreases |ops|
  {
    if ops == [] {
      Stay(nodes, input);
    } else {
      var next := nodes + [WithInput(ops[0], input)];
      assert ops[0] in ops;
      Grow(nodes, Some(input), WithInput(ops[0], input));
      ClauseGrows(next, |nodes|, ops[1..]);
      var (out, id) := PushAll(nodes, input, ops);
      GrowTwice(nodes, Some(input), next, |nodes|, out, id);
    }
  }

  /** A finished plan is one the optimizer may start from. */
  lemma FinishedPlan(nodes: seq<LogicalOp>, root: nat)
    requires Start(nodes, Some(root))
    ensures PlanOk(root, nodes, Below(|nodes|))
  {
    forall k: nat, c | k < |nodes| && c in Inputs(nodes[k]) ensures c in Below(|nodes|) && c != root {
      assert InputsBelow(nodes[k], k);
    }
  }

  // ====================
  // Whole queries: clause after clause onto the arena, with sub-plans for OPTIONAL MATCH
  // and CALL.

  datatype QueryClause =
    | MatchClause(optional: bool, parts: seq<Part>, where: Option<Expr>)
    | UnwindClause(expr: Expr, alias: VarId)
    | WithClause(columns: Clause, where: Option<Expr>)
    | ReturnClause(columns: Clause)
    | CallClause(body: seq<QueryClause>, unions: seq<CallBranch>, returnVars: seq<VarId>)

  datatype CallBranch = CallBranch(all: bool, body: seq<QueryClause>)

  /** The variables an OPTIONAL MATCH null-extends a row with. */
  function Binders(parts: seq<Part>): seq<VarId> {
    if parts == [] then []
    else
      var p := parts[0];
      (if p.binding.Some? then [p.binding.value] else []) + [p.chain.head.v] + StepBinders(p.chain.steps)
      + Binders(parts[1..])
  }

  function StepBinders(steps: seq<ChainStep>): seq<VarId> {
    if steps == [] then []
    else (if steps[0].rel.v.Some? then [steps[0].rel.v.value] else []) + [steps[0].node.v] + StepBinders(steps[1..])
  }

  function Renaming(items: seq<Item>, heads: seq<VarId>): seq<Item> {
    if items == [] || heads == [] then []
    else [Item(Variable(items[0].output), heads[0])] + Renaming(items[1..], heads[1..])
  }

  /** The columns of a branch's RETURN; the analyzer makes each branch end in
      one. */
  function ReturnItems(b: CallBranch): seq<Item> {
    if b.body != [] && b.body[|b.body| - 1].ReturnClause? then b.body[|b.body| - 1].columns.items else []
  }

  /** A branch's columns under the names of the head's. */
  function BranchColumns(b: CallBranch, heads: seq<VarId>): seq<Item> { Renaming(ReturnItems(b), heads) }

  // ----- planning -----

  type Site = (seq<LogicalOp>, nat)

  function OrUnit(nodes: seq<LogicalOp>, input: Option<nat>): Site {
    if input.Some? then (nodes, input.value) else (nodes + [Argument], |nodes|)
  }

  function PushWhere(a: Site, where: Option<Expr>): Site {
    match where case None => a case Some(pred) => (a.0 + [Filter(a.1, pred)], |a.0|)
  }

  function PlanClauses(nodes: seq<LogicalOp>, input: Option<nat>, cs: seq<QueryClause>): Site
    decreases cs, 0
  {
    if cs == [] then OrUnit(nodes, input)
    else
      var (next, id) := PlanClause(nodes, input, cs[0]);
      PlanClauses(next, Some(id), cs[1..])
  }

  function PlanClause(nodes: seq<LogicalOp>, input: Option<nat>, c: QueryClause): Site
    decreases c, 0
  {
    match c
    case MatchClause(false, parts, where) =>
      var p := PlanMatch(nodes, input, parts, where);
      (p.st.nodes, p.node)
    case MatchClause(true, parts, where) =>
      var (first, up) := OrUnit(nodes, input);
      var p := PlanMatch(first, None, parts, where);
      (p.st.nodes + [OptionalMatch(up, p.node, Binders(parts))], |p.st.nodes|)
    case UnwindClause(expr, alias) =>
      var (first, up) := OrUnit(nodes, input);
      (first + [Unwind(up, expr, alias)], |first|)
    case WithClause(columns, where) =>
      var (first, up) := OrUnit(nodes, input);
      PushWhere(PushAll(first, up, ClauseOps(columns)), where)
    case ReturnClause(columns) =>
      var (first, up) := OrUnit(nodes, input);
      PushAll(first, up, ClauseOps(columns))
    case CallClause(body, unions, returnVars) =>
      var (first, up) := OrUnit(nodes, input);
      var (second, inner) := PlanClauses(first, None, body);
      var (third, branches) := PlanBranches(second, unions, returnVars);
      (third + [CallSubquery(up, inner, branches, returnVars)], |third|)
  }

  function PlanBranches(nodes: seq<LogicalOp>, bs: seq<CallBranch>, heads: seq<VarId>)
    : (seq<LogicalOp>, seq<UnionBranch>)
    decreases bs, 0
  {
    if bs == [] then (nodes, [])
    else
      var (next, id) := PlanClauses(nodes, None, bs[0].body);
      var (out, rest) := PlanBranches(
        next + [Projection(id, false, BranchColumns(bs[0], heads), false)], bs[1..], heads);
      (out, [UnionBranch(bs[0].all, |next|)] + rest)
  }

  // ----- the meaning of a query -----

  /** The matches of an outer row, or the row with the pattern's variables
      null. */
  function OrNull(row: Row, matches: seq<Row>, vars: seq<VarId>): seq<Row> {
    if matches == [] then [NullExtend(row, vars)] else matches
  }

  function Matches(parts: seq<Part>, where: Option<Expr>, rows: seq<Row>, x: Exec): seq<Row>
  {
    Keep(WhereList(where), MatchPattern(parts, rows, x), x.env)
  }

  ghost function RunClauses(cs: seq<QueryClause>, rows: seq<Row>, x: Exec): seq<Row>
    decreases cs, 0
  {
    if cs == [] then rows else RunClauses(cs[1..], RunClause(cs[0], rows, x), x)
  }

  ghost function RunClause(c: QueryClause, rows: seq<Row>, x: Exec): seq<Row>
    decreases c, 0
  {
    match c
    case MatchClause(false, parts, where) => Matches(parts, where, rows, x)
    case MatchClause(true, parts, where) =>
      FlatMap((row: Row) => OrNull(row, Matches(parts, where, [row], x), Binders(parts)), rows)
    case UnwindClause(expr, alias) => StepAll(Unwind(0, expr, alias), rows, x)
    case WithClause(columns, where) => Keep(WhereList(where), Cypher(columns, rows, x), x.env)
    case ReturnClause(columns) => Cypher(columns, rows, x)
    case CallClause(body, unions, heads) =>
      FlatMap((row: Row) => Called(row, RunClauses(body, [row], x) + RunBranches(unions, heads, row, x), unions), rows)
  }

  /** Each outer row with each row of the body; a plain UNION among the
      branches keeps one of equal rows. */
  ghost function Called(row: Row, rows: seq<Row>, bs: seq<CallBranch>): seq<Row> {
    var distinct := exists b | 0 <= b < |bs| :: !bs[b].all;
    MergeAll(row, if distinct then Dedup(rows, {}) else rows, false)
  }

  ghost function RunBranches(bs: seq<CallBranch>, heads: seq<VarId>, row: Row, x: Exec): seq<Row>
    decreases bs, 0
  {
    if bs == [] then []
    else
      MapRows(Narrow(BranchColumns(bs[0], heads), x.env), RunClauses(bs[0].body, [row], x))
      + RunBranches(bs[1..], heads, row, x)
  }

  // ----- where the planner's assumptions hold -----

  function PathVars(parts: seq<Part>): set<VarId> {
    if parts == [] then {} else OptionSet(parts[0].binding) + PathVars(parts[1..])
  }

  /** Path variables are fresh, and each WITH and RETURN fits the rows it is
      given. */
  ghost predicate Fits(cs: seq<QueryClause>, rows: seq<Row>, x: Exec)
    decreases cs, 0
  {
    cs == [] || (FitsClause(cs[0], rows, x) && Fits(cs[1..], RunClause(cs[0], rows, x), x))
  }

  ghost predicate FitsClause(c: QueryClause, rows: seq<Row>, x: Exec)
    decreases c, 0
  {
    match c
    case MatchClause(optional, parts, _) =>
      PathsFresh(parts, {}) && (optional ==> forall row | row in rows :: PathVars(parts) !! row.Keys)
    case UnwindClause(_, _) => true
    case WithClause(columns, _) => ClauseFits(columns, rows)
    case ReturnClause(columns) => ClauseFits(columns, rows)
    case CallClause(body, unions, _) =>
      forall row | row in rows :: Fits(body, [row], x) && BranchesFit(unions, row, x)
  }

  ghost predicate BranchesFit(bs: seq<CallBranch>, row: Row, x: Exec)
    decreases bs, 0
  {
    bs == [] ||
    (Fits(bs[0].body, [row], x) && BranchesFit(bs[1..], row, x))
  }

  // ----- shape -----

  lemma OrUnitGrows(nodes: seq<LogicalOp>, input: Option<nat>)
    requires Start(nodes, input)
    ensures var (first, up) := OrUnit(nodes, input); Grown(nodes, input, first, up)
  {
    if input.Some? { Stay(nodes, input.value); } else { Grow(nodes, None, Argument); }
  }

  lemma WhereGrows(a: Site, where: Option<Expr>)
    requires Start(a.0, Some(a.1))
    ensures var (out, id) := PushWhere(a, where); Grown(a.0, Some(a.1), out, id)
  {
    match where
    case None => Stay(a.0, a.1);
    case Some(pred) => Grow(a.0, Some(a.1), Filter(a.1, pred));
  }

  /** An operator over an input and sub-plans built after it. */
  lemma PushOver(
    nodes: seq<LogicalOp>, input: Option<nat>, first: seq<LogicalOp>, up: nat, all: seq<LogicalOp>, subs: seq<nat>,
    op: LogicalOp)
    requires Grown(nodes, input, first, up) && Inputs(op) == [up] + subs && NoDup(subs)
    requires |first| <= |all| && all[..|first|] == first && ForestOf(all)
    requires forall u: nat | u < |first| && NotRead(first, u) :: NotRead(all, u)
    requires forall c | c in subs :: |first| <= c < |all| && NotRead(all, c)
    ensures Grown(nodes, input, all + [op], |all|)
  {
    var out := all + [op];
    PushForest(all, op);
    assert out[..|nodes|] == all[..|first|][..|nodes|];
    forall u: nat | u < |nodes| && NotRead(nodes, u) && Some(u) != input && u != |all| ensures NotRead(out, u) {
      assert u != up;
      assert NotRead(first, u);
      assert NotRead(all, u);
    }
  }

  /** Planning clauses grows the forest on its input. */
  lemma {:induction false} ClausesGrow(nodes: seq<LogicalOp>, input: Option<nat>, cs: seq<QueryClause>)
    requires Start(nodes, input)
    ensures var (out, id) := PlanClauses(nodes, input, cs); Grown(nodes, input, out, id)
    decreases cs, 1
  {
    if cs == [] {
      OrUnitGrows(nodes, input);
    } else {
      var (next, id) := PlanClause(nodes, input, cs[0]);
      ClauseGrowsOn(nodes, input, cs[0]);
      ClausesGrow(next, Some(id), cs[1..]);
      var (out, last) := PlanClauses(next, Some(id), cs[1..]);
      GrowTwice(nodes, input, next, id, out, last);
    }
  }

  lemma {:induction false} ClauseGrowsOn(nodes: seq<LogicalOp>, input: Option<nat>, c: QueryClause)
    requires Start(nodes, input)
    ensures var (out, id) := PlanClause(nodes, input, c); Grown(nodes, input, out, id)
    decreases c, 1
  {
    match c
    case MatchClause(false, parts, where) => MatchGrows(nodes, input, parts, where);
    case MatchClause(true, parts, where) => OptionalGrows(nodes, input, parts, where);
    case UnwindClause(expr, alias) => UnwindGrows(nodes, input, expr, alias);
    case WithClause(columns, where) => WithGrows(nodes, input, columns, where);
    case ReturnClause(columns) => ColumnsGrow(nodes, input, columns);
    case CallClause(body, unions, heads) =>
      var (first, up) := OrUnit(nodes, input);
      OrUnitGrows(nodes, input);
      var (second, inner) := PlanClauses(first, None, body);
      ClausesGrow(first, None, body);
      var (third, branches) := PlanBranches(second, unions, heads);
      BranchesGrow(second, unions, heads);
      CallGrows(nodes, input, first, up, second, inner, third, branches, heads);
  }

  lemma SubPlanGrows(
    nodes: seq<LogicalOp>, input: Option<nat>, first: seq<LogicalOp>, up: nat, all: seq<LogicalOp>, inner: nat,
    op: LogicalOp)
    requires Grown(nodes, input, first, up) && Grown(first, None, all, inner) && Inputs(op) == [up, inner]
    ensures Grown(nodes, input, all + [op], |all|)
  {
    assert [up] + [inner] == [up, inner];
    PushOver(nodes, input, first, up, all, [inner], op);
  }

  lemma InnerMatchGrows(
    nodes: seq<LogicalOp>, input: Option<nat>, parts: seq<Part>, where: Option<Expr>)
    requires Start(nodes, input)
    ensures var (first, up) := OrUnit(nodes, input);
      var p := PlanMatch(first, None, parts, where);
      Grown(nodes, input, first, up) && Grown(first, None, p.st.nodes, p.node)
  {
    OrUnitGrows(nodes, input);
    MatchGrows(OrUnit(nodes, input).0, None, parts, where);
  }

  lemma OptionalOver(
    nodes: seq<LogicalOp>, input: Option<nat>, first: seq<LogicalOp>, up: nat, all: seq<LogicalOp>, inner: nat,
    vars: seq<VarId>)
    requires Grown(nodes, input, first, up) && Grown(first, None, all, inner)
    ensures Grown(nodes, input, all + [OptionalMatch(up, inner, vars)], |all|)
  {
    SubPlanGrows(nodes, input, first, up, all, inner, OptionalMatch(up, inner, vars));
  }

  lemma OptionalGrows(
    nodes: seq<LogicalOp>, input: Option<nat>, parts: seq<Part>, where: Option<Expr>)
    requires Start(nodes, input)
    ensures var (first, up) := OrUnit(nodes, input);
      var p := PlanMatch(first, None, parts, where);
      Grown(nodes, input, p.st.nodes + [OptionalMatch(up, p.node, Binders(parts))], |p.st.nodes|)
  {
    InnerMatchGrows(nodes, input, parts, where);
    var (first, up) := OrUnit(nodes, input);
    var p := PlanMatch(first, None, parts, where);
    OptionalOver(nodes, input, first, up, p.st.nodes, p.node, Binders(parts));
  }

  lemma UnwindGrows(nodes: seq<LogicalOp>, input: Option<nat>, expr: Expr, alias: VarId)
    requires Start(nodes, input)
    ensures var (first, up) := OrUnit(nodes, input);
      Grown(nodes, input, first + [Unwind(up, expr, alias)], |first|)
  {
    var (first, up) := OrUnit(nodes, input);
    OrUnitGrows(nodes, input);
    Grow(first, Some(up), Unwind(up, expr, alias));
    GrowTwice(nodes, input, first, up, first + [Unwind(up, expr, alias)], |first|);
  }

  lemma GrownWhere(nodes: seq<LogicalOp>, input: Option<nat>, a: Site, where: Option<Expr>)
    requires Grown(nodes, input, a.0, a.1)
    ensures var (out, id) := PushWhere(a, where); Grown(nodes, input, out, id)
  {
    WhereGrows(a, where);
    var (out, id) := PushWhere(a, where);
    GrowTwice(nodes, input, a.0, a.1, out, id);
  }

  lemma WithGrows(nodes: seq<LogicalOp>, input: Option<nat>, columns: Clause, where: Option<Expr>)
    requires Start(nodes, input)
    ensures var (first, up) := OrUnit(nodes, input);
      var (out, id) := PushWhere(PushAll(first, up, ClauseOps(columns)), where); Grown(nodes, input, out, id)
  {
    var (first, up) := OrUnit(nodes, input);
    ColumnsGrow(nodes, input, columns);
    GrownWhere(nodes, input, PushAll(first, up, ClauseOps(columns)), where);
  }

  lemma ColumnsGrow(nodes: seq<LogicalOp>, input: Option<nat>, columns: Clause)
    requires Start(nodes, input)
    ensures var (first, up) := OrUnit(nodes, input);
      var (out, id) := PushAll(first, up, ClauseOps(columns)); Grown(nodes, input, out, id)
  {
    var (first, up) := OrUnit(nodes, input);
    OrUnitGrows(nodes, input);
    ClauseOpsOnly(columns);
    ClauseGrows(first, up, ClauseOps(columns));
    var (out, id) := PushAll(first, up, ClauseOps(columns));
    GrowTwice(nodes, input, first, up, out, id);
  }

  /** Sub-plans next to what is there: nothing there is newly read. */
  ghost predicate Beside(a: seq<LogicalOp>, b: seq<LogicalOp>, ids: seq<nat>) {
    && |a| <= |b| && b[..|a|] == a && ForestOf(b) && NoDup(ids)
    && (forall u: nat | u < |a| && NotRead(a, u) :: NotRead(b, u))
    && (forall c | c in ids :: |a| <= c < |b| && NotRead(b, c))
  }

  lemma {:induction false} BranchFlags(nodes: seq<LogicalOp>, bs: seq<CallBranch>, heads: seq<VarId>)
    ensures var us := PlanBranches(nodes, bs, heads).1;
      |us| == |bs| && forall k | 0 <= k < |us| :: us[k].all == bs[k].all
    decreases |bs|
  {
    if bs != [] {
      var (next, id) := PlanClauses(nodes, None, bs[0].body);
      BranchFlags(next + [Projection(id, false, BranchColumns(bs[0], heads), false)], bs[1..], heads);
    }
  }

  lemma {:induction false} BranchesGrow(nodes: seq<LogicalOp>, bs: seq<CallBranch>, heads: seq<VarId>)
    requires ForestOf(nodes)
    ensures var (out, us) := PlanBranches(nodes, bs, heads); Beside(nodes, out, BranchIds(us))
    decreases bs, 1
  {
    if bs != [] {
      var (next, id) := PlanClauses(nodes, None, bs[0].body);
      ClausesGrow(nodes, None, bs[0].body);
      var op := Projection(id, false, BranchColumns(bs[0], heads), false);
      Grow(next, Some(id), op);
      BranchesGrow(next + [op], bs[1..], heads);
      var (out, rest) := PlanBranches(next + [op], bs[1..], heads);
      FirstBeside(nodes, next, id, op, out, UnionBranch(bs[0].all, |next|), rest);
    }
  }

  lemma NoDupCons<T>(e: T, s: seq<T>)
    requires NoDup(s) && e !in s
    ensures NoDup([e] + s)
  {
    var t := [e] + s;
    forall i, j | 0 <= i < j < |t| ensures t[i] != t[j] {
      assert t[j] == s[j - 1];
      if i > 0 { assert t[i] == s[i - 1]; }
    }
  }

  lemma FirstId(first: UnionBranch, rest: seq<UnionBranch>)
    ensures BranchIds([first] + rest) == [first.inner] + BranchIds(rest)
  {
    assert ([first] + rest)[1..] == rest;
  }

  lemma StillUnread(nodes: seq<LogicalOp>, next: seq<LogicalOp>, id: nat, all: seq<LogicalOp>, out: seq<LogicalOp>, u: nat)
    requires Grown(nodes, None, next, id) && Grown(next, Some(id), all, |next|)
    requires u < |nodes| && NotRead(nodes, u)
    requires forall u: nat | u < |all| && NotRead(all, u) :: NotRead(out, u)
    ensures NotRead(out, u)
  {
    assert NotRead(next, u);
    assert NotRead(all, u);
  }

  lemma FirstBeside(
    nodes: seq<LogicalOp>, next: seq<LogicalOp>, id: nat, op: LogicalOp, out: seq<LogicalOp>, first: UnionBranch,
    rest: seq<UnionBranch>)
    requires Grown(nodes, None, next, id) && Grown(next, Some(id), next + [op], |next|) && first.inner == |next|
    requires Beside(next + [op], out, BranchIds(rest))
    ensures Beside(nodes, out, BranchIds([first] + rest))
  {
    FirstId(first, rest);
    NoDupCons(|next|, BranchIds(rest));
    assert out[..|nodes|] == out[..|next| + 1][..|next|][..|nodes|];
    forall u: nat | u < |nodes| && NotRead(nodes, u) ensures NotRead(out, u) {
      StillUnread(nodes, next, id, next + [op], out, u);
    }
  }

  lemma CallGrows(
    nodes: seq<LogicalOp>, input: Option<nat>, first: seq<LogicalOp>, up: nat, second: seq<LogicalOp>, inner: nat,
    third: seq<LogicalOp>, branches: seq<UnionBranch>, heads: seq<VarId>)
    requires Grown(nodes, input, first, up) && Grown(first, None, second, inner)
    requires Beside(second, third, BranchIds(branches))
    ensures Grown(nodes, input, third + [CallSubquery(up, inner, branches, heads)], |third|)
  {
    var subs := [inner] + BranchIds(branches);
    var op := CallSubquery(up, inner, branches, heads);
    assert Inputs(op) == [up] + subs;
    assert third[..|first|] == third[..|second|][..|first|];
    forall u: nat | u < |first| && NotRead(first, u) ensures NotRead(third, u) { assert NotRead(second, u); }
    PushOver(nodes, input, first, up, third, subs, op);
  }

  // ----- rows -----

  lemma OrUnitRows(nodes: seq<LogicalOp>, input: Option<nat>, x: Exec, arg: Row)
    requires Start(nodes, input)
    ensures var (first, up) := OrUnit(nodes, input);
      Topological(first) && up < |first| && Denote(first, up, x, arg) == InputRows(nodes, input, x, arg)
  {
    OrUnitGrows(nodes, input);
  }

  /** The row stays as it was under what a pattern adds to it. */
  ghost predicate Keeps(row: Row, s: Row) { forall v | v in row :: v in s && s[v] == row[v] }

  lemma {:induction false} StepKeeps(op: LogicalOp, rows: seq<Row>, row: Row, x: Exec)
    requires op.NodeScan? || op.Expand? || (op.PathBuild? && op.output !in row)
    requires forall r | r in rows :: Keeps(row, r)
    ensures forall s | s in StepAll(op, rows, x) :: Keeps(row, s)
  {
    forall s | s in StepAll(op, rows, x) ensures Keeps(row, s) {
      var r := StepAllExtends(op, rows, s, x);
      StepExtends(op, r, s, x);
    }
  }

  lemma {:induction false} StepsKeep(src: VarId, steps: seq<ChainStep>, rows: seq<Row>, row: Row, x: Exec)
    requires forall r | r in rows :: Keeps(row, r)
    ensures forall s | s in MatchSteps(src, steps, rows, x) :: Keeps(row, s)
    decreases |steps|
  {
    if steps != [] {
      var next := StepAll(ExpandOf(src, steps[0]), rows, x);
      StepKeeps(ExpandOf(src, steps[0]), rows, row, x);
      KeepElements(StepChecks(steps[0]), next, x.env);
      StepsKeep(steps[0].node.v, steps[1..], Keep(StepChecks(steps[0]), next, x.env), row, x);
    }
  }

  lemma ChainKeeps(c: Chain, rows: seq<Row>, row: Row, x: Exec)
    requires forall r | r in rows :: Keeps(row, r)
    ensures forall s | s in MatchChain(c, rows, x) :: Keeps(row, s)
  {
    StepKeeps(ScanOf(c.head), rows, row, x);
    KeepElements(NodeChecks(c.head), StepAll(ScanOf(c.head), rows, x), x.env);
    StepsKeep(c.head.v, c.steps, MatchNode(c.head, rows, x), row, x);
  }

  /** A match extends the row it starts from. */
  lemma {:induction false} PatternKeeps(parts: seq<Part>, rows: seq<Row>, row: Row, x: Exec)
    requires PathVars(parts) !! row.Keys
    requires forall r | r in rows :: Keeps(row, r)
    ensures forall s | s in MatchPattern(parts, rows, x) :: Keeps(row, s)
    decreases |parts|
  {
    if parts != [] {
      var p := parts[0];
      ChainKeeps(Walked(p), rows, row, x);
      if p.binding.Some? {
        assert p.binding.value in PathVars(parts);
        StepKeeps(PathOf(p), MatchChain(Walked(p), rows, x), row, x);
      }
      PatternKeeps(parts[1..], MatchPart(p, rows, x), row, x);
    }
  }

  /** So merging it with that row changes nothing. */
  lemma {:induction false} MergeKept(row: Row, ms: seq<Row>)
    requires forall m | m in ms :: Keeps(row, m)
    ensures MergeAll(row, ms, true) == ms
  {
    if ms != [] {
      assert ms[0] in ms;
      assert ms[0] + row == ms[0];
      MergeKept(row, ms[1..]);
    }
  }

  lemma OptionalRow(
    parts: seq<Part>, where: Option<Expr>, row: Row, x: Exec)
    requires PathVars(parts) !! row.Keys
    ensures var ms := Matches(parts, where, [row], x);
      OptionalRows(row, ms, Binders(parts)) == OrNull(row, ms, Binders(parts))
  {
    PatternKeeps(parts, [row], row, x);
    KeepElements(WhereList(where), MatchPattern(parts, [row], x), x.env);
    MergeKept(row, Matches(parts, where, [row], x));
  }

  /** The node's rows are the given ones, and the arena only grew. */
  ghost predicate Yields(
    nodes: seq<LogicalOp>, input: Option<nat>, a: Site, x: Exec, arg: Row, rows: seq<Row>)
  {
    Grown(nodes, input, a.0, a.1) && Denote(a.0, a.1, x, arg) == rows
  }

  lemma OptionalTop(
    first: seq<LogicalOp>, up: nat, all: seq<LogicalOp>, inner: nat, vars: seq<VarId>, x: Exec, arg: Row)
    requires Topological(first) && Topological(all) && up < |first| <= |all| && all[..|first|] == first && inner < |all|
    ensures var out := all + [OptionalMatch(up, inner, vars)];
      Topological(out)
      && Denote(out, |all|, x, arg)
         == FlatMap((row: Row) => OptionalRows(row, Denote(all, inner, x, row), vars), Denote(first, up, x, arg))
  {
    var op := OptionalMatch(up, inner, vars);
    var out := all + [op];
    PushTopological(all, op);
    DenoteAgrees(first, out, up, x, arg);
    forall row { DenoteAgrees(all, out, inner, x, row); }
    FlatMapSame((row: Row) => OptionalRows(row, Denote(out, inner, x, row), vars),
                (row: Row) => OptionalRows(row, Denote(all, inner, x, row), vars), Denote(first, up, x, arg));
  }

  lemma OptionalRowRuns(
    nodes: seq<LogicalOp>, parts: seq<Part>, where: Option<Expr>, row: Row, x: Exec)
    requires ForestOf(nodes) && PathsFresh(parts, {}) && PathVars(parts) !! row.Keys
    ensures var p := PlanMatch(nodes, None, parts, where);
      Topological(p.st.nodes) && p.node < |p.st.nodes|
      && OptionalRows(row, Denote(p.st.nodes, p.node, x, row), Binders(parts))
         == OrNull(row, Matches(parts, where, [row], x), Binders(parts))
  {
    WhereKeepsRows(nodes, None, parts, where, x, row);
    OptionalRow(parts, where, row, x);
  }

  lemma OptionalRuns(
    nodes: seq<LogicalOp>, input: Option<nat>, parts: seq<Part>, where: Option<Expr>,
    x: Exec, arg: Row)
    requires Start(nodes, input) && PathsFresh(parts, {})
    requires forall row | row in InputRows(nodes, input, x, arg) :: PathVars(parts) !! row.Keys
    ensures var c := MatchClause(true, parts, where);
      Yields(nodes, input, PlanClause(nodes, input, c), x, arg, RunClause(c, InputRows(nodes, input, x, arg), x))
  {
    var (first, up) := OrUnit(nodes, input);
    var p, vars, rows := PlanMatch(first, None, parts, where), Binders(parts), InputRows(nodes, input, x, arg);
    OptionalGrows(nodes, input, parts, where);
    OrUnitGrows(nodes, input);
    OrUnitRows(nodes, input, x, arg);
    MatchGrows(first, None, parts, where);
    OptionalTop(first, up, p.st.nodes, p.node, vars, x, arg);
    forall row | row in rows
      ensures OptionalRows(row, Denote(p.st.nodes, p.node, x, row), vars)
           == OrNull(row, Matches(parts, where, [row], x), vars)
    {
      OptionalRowRuns(first, parts, where, row, x);
    }
    FlatMapSame((row: Row) => OptionalRows(row, Denote(p.st.nodes, p.node, x, row), vars),
                (row: Row) => OrNull(row, Matches(parts, where, [row], x), vars), rows);
  }

  // ----- a row without a match -----

  function SetOf(vs: seq<VarId>): set<VarId> { set v | v in vs }

  lemma SetOfConcat(a: seq<VarId>, b: seq<VarId>)
    ensures SetOf(a + b) == SetOf(a) + SetOf(b)
  {}

  lemma {:induction false} NullExtendBinds(row: Row, vars: seq<VarId>)
    ensures NullExtend(row, vars).Keys == row.Keys + SetOf(vars)
    ensures forall v | v in NullExtend(row, vars) :: NullExtend(row, vars)[v] == if v in row then row[v] else Null
    decreases |vars|
  {
    if vars != [] { NullExtendBinds(BindOne(row, vars[0], Null), vars[1..]); }
  }

  lemma {:induction false} StepBindersAll(steps: seq<ChainStep>)
    ensures SetOf(StepBinders(steps)) == StepsVars(steps)
  {
    if steps != [] {
      var s := steps[0];
      StepBindersAll(steps[1..]);
      var own: seq<VarId> := if s.rel.v.Some? then [s.rel.v.value] else [];
      assert SetOf(own) == OptionSet(s.rel.v);
      SetOfConcat(own, [s.node.v]);
      SetOfConcat(own + [s.node.v], StepBinders(steps[1..]));
    }
  }

  lemma {:induction false} BindersAll(parts: seq<Part>)
    ensures SetOf(Binders(parts)) == PatternVars(parts)
  {
    if parts != [] {
      var p := parts[0];
      BindersAll(parts[1..]);
      StepBindersAll(p.chain.steps);
      var own: seq<VarId> := if p.binding.Some? then [p.binding.value] else [];
      assert SetOf(own) == OptionSet(p.binding);
      SetOfConcat(own, [p.chain.head.v]);
      SetOfConcat(own + [p.chain.head.v], StepBinders(p.chain.steps));
      SetOfConcat(own + [p.chain.head.v] + StepBinders(p.chain.steps), Binders(parts[1..]));
    }
  }

  /** The outer row, and Null for every other variable of the pattern. */
  ghost predicate NullRow(parts: seq<Part>, row: Row, out: Row) {
    && out.Keys == row.Keys + PatternVars(parts)
    && forall v | v in out :: out[v] == if v in row then row[v] else Null
  }

  /** Row by row: the matches that pass the WHERE, or one null row. */
  ghost predicate OptionalRowsOf(parts: seq<Part>, where: Option<Expr>, rows: seq<Row>, out: seq<Row>, x: Exec)
    decreases |rows|
  {
    if rows == [] then out == []
    else
      var found := Matches(parts, where, [rows[0]], x);
      var n := if found == [] then 1 else |found|;
      && n <= |out| && OptionalRowsOf(parts, where, rows[1..], out[n..], x)
      && if found == [] then NullRow(parts, rows[0], out[0]) else out[..n] == found
  }

  lemma {:induction false} OptionalRowsAre(parts: seq<Part>, where: Option<Expr>, rows: seq<Row>, x: Exec)
    ensures OptionalRowsOf(parts, where, rows, RunClause(MatchClause(true, parts, where), rows, x), x)
    decreases |rows|
  {
    if rows == [] { return; }
    var c, found := MatchClause(true, parts, where), Matches(parts, where, [rows[0]], x);
    var first, rest := OrNull(rows[0], found, Binders(parts)), RunClause(c, rows[1..], x);
    OptionalRowsAre(parts, where, rows[1..], x);
    assert RunClause(c, rows, x) == first + rest;
    assert (first + rest)[|first|..] == rest && (first + rest)[..|first|] == first;
    NullExtendBinds(rows[0], Binders(parts));
    BindersAll(parts);
  }

  /** What the plan of an OPTIONAL MATCH yields: an outer row without a match
      keeps what it binds, with Null for the rest of the pattern. */
  lemma UnmatchedNull(
    nodes: seq<LogicalOp>, input: Option<nat>, parts: seq<Part>, where: Option<Expr>, x: Exec, arg: Row)
    requires Start(nodes, input) && PathsFresh(parts, {})
    requires forall row | row in InputRows(nodes, input, x, arg) :: PathVars(parts) !! row.Keys
    ensures var (out, id) := PlanClause(nodes, input, MatchClause(true, parts, where));
      && Topological(out) && id < |out|
      && OptionalRowsOf(parts, where, InputRows(nodes, input, x, arg), Denote(out, id, x, arg), x)
  {
    OptionalRuns(nodes, input, parts, where, x, arg);
    OptionalRowsAre(parts, where, InputRows(nodes, input, x, arg), x);
  }

  lemma UnwindRuns(nodes: seq<LogicalOp>, input: Option<nat>, expr: Expr, alias: VarId, x: Exec, arg: Row)
    requires Start(nodes, input)
    ensures var c := UnwindClause(expr, alias);
      Yields(nodes, input, PlanClause(nodes, input, c), x, arg, RunClause(c, InputRows(nodes, input, x, arg), x))
  {
    var (first, up) := OrUnit(nodes, input);
    UnwindGrows(nodes, input, expr, alias);
    OrUnitRows(nodes, input, x, arg);
    DenotePush(first, Unwind(up, expr, alias), x, arg);
    var rows := InputRows(nodes, input, x, arg);
    StepAllDetached(Unwind(up, expr, alias), rows, x);
  }

  lemma ColumnsRun(nodes: seq<LogicalOp>, input: Option<nat>, columns: Clause, x: Exec, arg: Row)
    requires Start(nodes, input) && GroupColumns(x) && ClauseFits(columns, InputRows(nodes, input, x, arg))
    ensures var (first, up) := OrUnit(nodes, input);
      Yields(nodes, input, PushAll(first, up, ClauseOps(columns)), x, arg,
             Cypher(columns, InputRows(nodes, input, x, arg), x))
  {
    var (first, up) := OrUnit(nodes, input);
    ColumnsGrow(nodes, input, columns);
    OrUnitRows(nodes, input, x, arg);
    PlannedClause(first, up, columns, x, arg);
  }

  lemma WhereRuns(a: Site, where: Option<Expr>, x: Exec, arg: Row)
    requires Topological(a.0) && a.1 < |a.0|
    ensures var (out, id) := PushWhere(a, where);
      Topological(out) && id < |out|
      && Denote(out, id, x, arg) == Keep(WhereList(where), Denote(a.0, a.1, x, arg), x.env)
  {
    var rows := Denote(a.0, a.1, x, arg);
    match where
    case None => KeepAll([], rows, x.env);
    case Some(pred) =>
      DenotePush(a.0, Filter(a.1, pred), x, arg);
      FilterKeeps(a.1, pred, rows, x);
  }

  lemma WhereYields(
    nodes: seq<LogicalOp>, input: Option<nat>, a: Site, where: Option<Expr>, x: Exec, arg: Row, rows: seq<Row>)
    requires Yields(nodes, input, a, x, arg, rows)
    ensures Yields(nodes, input, PushWhere(a, where), x, arg, Keep(WhereList(where), rows, x.env))
  {
    GrownWhere(nodes, input, a, where);
    WhereRuns(a, where, x, arg);
  }

  lemma WithRuns(nodes: seq<LogicalOp>, input: Option<nat>, columns: Clause, where: Option<Expr>, x: Exec, arg: Row)
    requires Start(nodes, input) && GroupColumns(x) && ClauseFits(columns, InputRows(nodes, input, x, arg))
    ensures var (first, up) := OrUnit(nodes, input);
      Yields(nodes, input, PushWhere(PushAll(first, up, ClauseOps(columns)), where), x, arg,
             Keep(WhereList(where), Cypher(columns, InputRows(nodes, input, x, arg), x), x.env))
  {
    var (first, up) := OrUnit(nodes, input);
    ColumnsRun(nodes, input, columns, x, arg);
    WhereYields(nodes, input, PushAll(first, up, ClauseOps(columns)), where, x, arg,
                Cypher(columns, InputRows(nodes, input, x, arg), x));
  }

  /** For every query, the planned arena yields its clauses' rows, one clause
      after another. */
  lemma {:induction false} ClausesRun(
    nodes: seq<LogicalOp>, input: Option<nat>, cs: seq<QueryClause>, x: Exec, arg: Row)
    requires Start(nodes, input) && GroupColumns(x)
    requires Fits(cs, InputRows(nodes, input, x, arg), x)
    ensures Yields(nodes, input, PlanClauses(nodes, input, cs), x, arg,
                   RunClauses(cs, InputRows(nodes, input, x, arg), x))
    decreases cs, 1
  {
    if cs == [] {
      OrUnitGrows(nodes, input);
      OrUnitRows(nodes, input, x, arg);
    } else {
      var (next, id) := PlanClause(nodes, input, cs[0]);
      ClauseRuns(nodes, input, cs[0], x, arg);
      ClausesRun(next, Some(id), cs[1..], x, arg);
      var (out, last) := PlanClauses(next, Some(id), cs[1..]);
      GrowTwice(nodes, input, next, id, out, last);
    }
  }

  lemma {:induction false} ClauseRuns(
    nodes: seq<LogicalOp>, input: Option<nat>, c: QueryClause, x: Exec, arg: Row)
    requires Start(nodes, input) && GroupColumns(x)
    requires FitsClause(c, InputRows(nodes, input, x, arg), x)
    ensures Yields(nodes, input, PlanClause(nodes, input, c), x, arg,
                   RunClause(c, InputRows(nodes, input, x, arg), x))
    decreases c, 1
  {
    match c
    case MatchClause(false, parts, where) =>
      MatchGrows(nodes, input, parts, where);
      WhereKeepsRows(nodes, input, parts, where, x, arg);
    case MatchClause(true, parts, where) => OptionalRuns(nodes, input, parts, where, x, arg);
    case UnwindClause(expr, alias) => UnwindRuns(nodes, input, expr, alias, x, arg);
    case WithClause(columns, where) => WithRuns(nodes, input, columns, where, x, arg);
    case ReturnClause(columns) => ColumnsRun(nodes, input, columns, x, arg);
    case CallClause(_, _, _) => CallRuns(nodes, input, c, x, arg);
  }

  lemma CallTop(
    first: seq<LogicalOp>, up: nat, second: seq<LogicalOp>, inner: nat, third: seq<LogicalOp>, us: seq<UnionBranch>,
    heads: seq<VarId>, x: Exec, arg: Row)
    requires Topological(first) && Topological(second) && Topological(third) && up < |first| && inner < |second|
    requires |first| <= |second| <= |third| && second[..|first|] == first && third[..|second|] == second
    requires forall k | 0 <= k < |us| :: us[k].inner < |third|
    ensures var out := third + [CallSubquery(up, inner, us, heads)];
      Topological(out)
      && Denote(out, |third|, x, arg)
         == FlatMap((row: Row) =>
                      CallRows(row, Denote(second, inner, x, row), UnionRows(third, |third|, us, row, x), us),
                    Denote(first, up, x, arg))
  {
    var op, top := CallSubquery(up, inner, us, heads), |third|;
    var out := third + [op];
    PushTopological(third, op);
    assert first == out[..|second|][..|first|] && second == out[..|second|];
    DenoteAgrees(first, out, up, x, arg);
    forall row
      ensures Denote(second, inner, x, row) == Denote(out, inner, x, row)
      ensures UnionRows(third, top, us, row, x) == UnionRows(out, top, us, row, x)
    {
      DenoteAgrees(second, out, inner, x, row);
      UnionAgrees(third, out, top, us, row, x);
    }
    FlatMapSame(
      (row: Row) => CallRows(row, Denote(out, inner, x, row), UnionRows(out, top, us, row, x), us),
      (row: Row) => CallRows(row, Denote(second, inner, x, row), UnionRows(third, top, us, row, x), us),
      Denote(first, up, x, arg));
  }

  /** Plain UNION or UNION ALL: the branches planned carry the same flags. */
  lemma SameFlags(row: Row, first: seq<Row>, others: seq<Row>, us: seq<UnionBranch>, bs: seq<CallBranch>)
    requires |us| == |bs| && forall k | 0 <= k < |us| :: us[k].all == bs[k].all
    ensures CallRows(row, first, others, us) == Called(row, first + others, bs)
  {
    assert (exists b | 0 <= b < |us| :: !us[b].all) <==> (exists b | 0 <= b < |bs| :: !bs[b].all);
  }

  lemma BranchesBelow(us: seq<UnionBranch>, bound: nat)
    requires forall c | c in BranchIds(us) :: c < bound
    ensures forall k | 0 <= k < |us| :: us[k].inner < bound
  {
    forall k | 0 <= k < |us| ensures us[k].inner < bound { assert BranchIds(us)[k] in BranchIds(us); }
  }

  lemma {:induction false} CallRuns(
    nodes: seq<LogicalOp>, input: Option<nat>, c: QueryClause, x: Exec, arg: Row)
    requires c.CallClause? && Start(nodes, input) && GroupColumns(x)
    requires FitsClause(c, InputRows(nodes, input, x, arg), x)
    ensures Yields(nodes, input, PlanClause(nodes, input, c), x, arg,
                   RunClause(c, InputRows(nodes, input, x, arg), x))
    decreases c, 0
  {
    var body, unions, heads, rows := c.body, c.unions, c.returnVars, InputRows(nodes, input, x, arg);
    var (first, up) := OrUnit(nodes, input);
    var (second, inner) := PlanClauses(first, None, body);
    var (third, us) := PlanBranches(second, unions, heads);
    OrUnitGrows(nodes, input);
    OrUnitRows(nodes, input, x, arg);
    ClausesGrow(first, None, body);
    BranchesGrow(second, unions, heads);
    BranchFlags(second, unions, heads);
    CallGrows(nodes, input, first, up, second, inner, third, us, heads);
    BranchesBelow(us, |third|);
    CallTop(first, up, second, inner, third, us, heads, x, arg);
    forall row | row in rows
      ensures CallRows(row, Denote(second, inner, x, row), UnionRows(third, |third|, us, row, x), us)
           == Called(row, RunClauses(body, [row], x) + RunBranches(unions, heads, row, x), unions)
    {
      ClausesRun(first, None, body, x, row);
      BranchesRun(second, unions, heads, x, row);
      SameFlags(row, RunClauses(body, [row], x), RunBranches(unions, heads, row, x), us, unions);
    }
    FlatMapSame(
      (row: Row) => CallRows(row, Denote(second, inner, x, row), UnionRows(third, |third|, us, row, x), us),
      (row: Row) => Called(row, RunClauses(body, [row], x) + RunBranches(unions, heads, row, x), unions), rows);
  }

  lemma BranchTop(
    nodes: seq<LogicalOp>, next: seq<LogicalOp>, id: nat, items: seq<Item>, rows: seq<Row>, x: Exec, row: Row)
    requires Grown(nodes, None, next, id) && Denote(next, id, x, row) == rows
    ensures var all := next + [Projection(id, false, items, false)];
      Topological(all) && Denote(all, |next|, x, row) == MapRows(Narrow(items, x.env), rows)
  {
    DenotePush(next, Projection(id, false, items, false), x, row);
    ProjectionMaps(id, false, items, false, Narrow(items, x.env), rows, x);
  }

  lemma FirstUnion(
    all: seq<LogicalOp>, out: seq<LogicalOp>, first: UnionBranch, us: seq<UnionBranch>, x: Exec, row: Row)
    requires Topological(all) && Topological(out) && |all| <= |out| && out[..|all|] == all
    requires first.inner < |all| && forall k | 0 <= k < |us| :: us[k].inner < |out|
    ensures UnionRows(out, |out|, [first] + us, row, x)
         == Denote(all, first.inner, x, row) + UnionRows(out, |out|, us, row, x)
  {
    DenoteAgrees(all, out, first.inner, x, row);
    assert ([first] + us)[1..] == us;
  }

  lemma {:induction false} BranchesRun(
    nodes: seq<LogicalOp>, bs: seq<CallBranch>, heads: seq<VarId>, x: Exec, row: Row)
    requires nodes != [] && ForestOf(nodes) && GroupColumns(x) && BranchesFit(bs, row, x)
    ensures var (out, us) := PlanBranches(nodes, bs, heads);
      && Beside(nodes, out, BranchIds(us)) && (forall k | 0 <= k < |us| :: us[k].inner < |out|)
      && UnionRows(out, |out|, us, row, x) == RunBranches(bs, heads, row, x)
    decreases bs, 1
  {
    var (out, us) := PlanBranches(nodes, bs, heads);
    BranchesGrow(nodes, bs, heads);
    BranchesBelow(us, |out|);
    if bs != [] {
      var (next, id) := PlanClauses(nodes, None, bs[0].body);
      var items := BranchColumns(bs[0], heads);
      var all := next + [Projection(id, false, items, false)];
      ClausesRun(nodes, None, bs[0].body, x, row);
      BranchTop(nodes, next, id, items, RunClauses(bs[0].body, [row], x), x, row);
      Grow(next, Some(id), Projection(id, false, items, false));
      BranchesRun(all, bs[1..], heads, x, row);
      FirstUnion(all, out, us[0], PlanBranches(all, bs[1..], heads).1, x, row);
    }
  }

  // ----- the rows of a branch -----

  predicate DistinctVars(vs: seq<VarId>) { forall i, j | 0 <= i < j < |vs| :: vs[i] != vs[j] }

  /** Under each of the head's names, in order, what the branch's row holds in
      its own column there; RETURN items beyond the head's have no name. */
  ghost predicate UnderHeads(items: seq<Item>, heads: seq<VarId>, row: Row, out: Row) {
    && (forall v | v in out :: exists i | 0 <= i < |heads| && i < |items| :: heads[i] == v)
    && (forall i | 0 <= i < |heads| && i < |items| :: heads[i] in out && out[heads[i]] == Lookup(row, items[i].output))
  }

  lemma {:induction false} RenamingOnto(items: seq<Item>, heads: seq<VarId>, row: Row, out: Row, env: Env)
    requires DistinctVars(heads)
    ensures var r := ProjectOnto(Renaming(items, heads), row, out, env);
      && (forall v | v in r :: v in out || exists i | 0 <= i < |heads| && i < |items| :: heads[i] == v)
      && (forall i | 0 <= i < |heads| && i < |items| :: heads[i] in r && r[heads[i]] == Lookup(row, items[i].output))
      && (forall v | v in out && v !in heads :: v in r && r[v] == out[v])
    decreases |items|
  {
    if items == [] || heads == [] { return; }
    var next := out[heads[0] := Lookup(row, items[0].output)];
    var first := Item(Variable(items[0].output), heads[0]);
    assert Renaming(items, heads) == [first] + Renaming(items[1..], heads[1..]);
    assert ([first] + Renaming(items[1..], heads[1..]))[1..] == Renaming(items[1..], heads[1..]);
    RenamingOnto(items[1..], heads[1..], row, next, env);
    var r := ProjectOnto(Renaming(items[1..], heads[1..]), row, next, env);
    forall v | v in r ensures v in out || exists i | 0 <= i < |heads| && i < |items| :: heads[i] == v {
      if v !in next {
        var i :| 0 <= i < |heads[1..]| && i < |items[1..]| && heads[1..][i] == v;
        assert heads[i + 1] == v;
      }
    }
    forall i | 0 <= i < |heads| && i < |items| ensures heads[i] in r && r[heads[i]] == Lookup(row, items[i].output) {
      if i > 0 { assert heads[1..][i - 1] == heads[i] && items[1..][i - 1] == items[i]; }
    }
  }

  /** Branch after branch, each row of its body under the head's names. */
  ghost predicate BranchRowsOf(bs: seq<CallBranch>, heads: seq<VarId>, row: Row, out: seq<Row>, x: Exec)
    decreases |bs|
  {
    if bs == [] then out == []
    else
      var own := RunClauses(bs[0].body, [row], x);
      && |own| <= |out| && BranchRowsOf(bs[1..], heads, row, out[|own|..], x)
      && forall i | 0 <= i < |own| :: UnderHeads(ReturnItems(bs[0]), heads, own[i], out[i])
  }

  lemma {:induction false} BranchesEach(bs: seq<CallBranch>, heads: seq<VarId>, row: Row, x: Exec)
    requires DistinctVars(heads)
    ensures BranchRowsOf(bs, heads, row, RunBranches(bs, heads, row, x), x)
    decreases |bs|
  {
    if bs == [] { return; }
    var own, f := RunClauses(bs[0].body, [row], x), Narrow(BranchColumns(bs[0], heads), x.env);
    var first, rest := MapRows(f, own), RunBranches(bs[1..], heads, row, x);
    BranchesEach(bs[1..], heads, row, x);
    assert RunBranches(bs, heads, row, x) == first + rest && (first + rest)[|own|..] == rest;
    forall i | 0 <= i < |own| ensures UnderHeads(ReturnItems(bs[0]), heads, own[i], (first + rest)[i]) {
      MapRowsAt(f, own, i);
      RenamingOnto(ReturnItems(bs[0]), heads, own[i], map[], x.env);
    }
  }

  /** What the planned UNION branches of a CALL yield. */
  lemma BranchesUnderHeads(nodes: seq<LogicalOp>, bs: seq<CallBranch>, heads: seq<VarId>, x: Exec, row: Row)
    requires nodes != [] && ForestOf(nodes) && GroupColumns(x) && BranchesFit(bs, row, x) && DistinctVars(heads)
    ensures var (out, us) := PlanBranches(nodes, bs, heads);
      && Topological(out) && out != [] && (forall k | 0 <= k < |us| :: us[k].inner < |out|)
      && BranchRowsOf(bs, heads, row, UnionRows(out, |out|, us, row, x), x)
  {
    BranchesRun(nodes, bs, heads, x, row);
    BranchesEach(bs, heads, row, x);
  }

  /** Each row beside the outer row, whose bindings win. */
  ghost predicate EachBeside(row: Row, rows: seq<Row>, out: seq<Row>) {
    && |out| == |rows|
    && forall i | 0 <= i < |out| ::
         out[i].Keys == rows[i].Keys + row.Keys
         && forall v | v in out[i] :: out[i][v] == if v in row then row[v] else rows[i][v]
  }

  /** The rows of a subquery beside the outer row; where a branch is a plain
      UNION, equal rows once. */
  ghost predicate CalledRowsOf(row: Row, rows: seq<Row>, bs: seq<CallBranch>, out: seq<Row>) {
    exists kept: seq<Row> ::
      && EachBeside(row, kept, out)
      && if forall b | b in bs :: b.all then kept == rows
         else NoDup(kept) && forall r :: r in kept <==> r in rows
  }

  lemma {:induction false} MergedBeside(row: Row, rows: seq<Row>)
    ensures EachBeside(row, rows, MergeAll(row, rows, false))
  {
    if rows != [] { MergedBeside(row, rows[1..]); }
  }

  lemma CalledIs(row: Row, rows: seq<Row>, bs: seq<CallBranch>)
    ensures CalledRowsOf(row, rows, bs, Called(row, rows, bs))
  {
    var all := forall b | b in bs :: b.all;
    assert all <==> !exists b | 0 <= b < |bs| :: !bs[b].all;
    var kept := if all then rows else Dedup(rows, {});
    DedupElements(rows, {});
    MergedBeside(row, kept);
    assert EachBeside(row, kept, Called(row, rows, bs));
  }

  /** A whole query: its plan is one the optimizer may start from, and yields
      its rows from a single empty one. */
  lemma QueryRuns(cs: seq<QueryClause>, x: Exec)
    requires GroupColumns(x) && Fits(cs, [map[]], x)
    ensures var (nodes, root) := PlanClauses([], None, cs);
      PlanOk(root, nodes, Below(|nodes|)) && Denote(nodes, root, x, map[]) == RunClauses(cs, [map[]], x)
  {
    var (nodes, root) := PlanClauses([], None, cs);
    ClausesRun([], None, cs, x, map[]);
    FinishedPlan(nodes, root);
  }
}
