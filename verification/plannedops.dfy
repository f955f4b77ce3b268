/** What the clauses of a query say of the operators planned for them: the
    conjuncts their filters hold, the nodes they scan, the rows they count and
    what their sorts read. */
module PlannedOps {
  import opened Values
  import opened Expressions
  import opened Conjuncts
  import opened Sorting
  import opened Logical
  import opened Arena
  import opened Planning
  import opened Placement
  import opened RangeBounds
  import opened SortOrder
  import opened ParamFold
  import opened TopK
  import opened Clauses
  import opened Queries
  import opened QueryRuns
  import opened FilterPush

  /** The variables patterns scan or expand to, and each relationship variable
      between the two nodes it is met from. */
  datatype Names = Names(scanned: set<VarId>, hops: set<(VarId, VarId, VarId)>)

  // ----- what is asked of expressions -----

  /** No node or relationship stores a list under the key. */
  ghost predicate NoLists(key: string, g: Graph) {
    && (forall id: nat | g.HasNode(id) :: !LookupKey(g.nodes[id].value.props, key).List?)
    && (forall r: nat | g.HasRel(r) :: !LookupKey(g.rels[r].value.props, key).List?)
  }

  /** A list predicate has a variable of its own, CONTAINS is not asked of
      stored lists, and a conjunct over a relationship names neither of its
      nodes. */
  ghost predicate ConjunctAsked(c: Expr, names: Names, g: Graph) {
    && (c.ListPredicate? ==> c.element !in names.scanned)
    && (c.Binary? && c.op.ContainsOp? && c.lhs.Property? ==> NoLists(c.lhs.key, g))
    && (forall h | h in names.hops && h.1 in Vars(c) :: h.0 !in Vars(c) && h.2 !in Vars(c))
  }

  /** The conjuncts are as asked, and so are the operands of an OR that may be
      left of it when the other is decided. */
  ghost predicate ConjunctsAsked(e: Expr, names: Names, g: Graph) {
    if IsAnd(e) then ConjunctsAsked(e.lhs, names, g) && ConjunctsAsked(e.rhs, names, g)
    else
      && ConjunctAsked(e, names, g)
      && (IsOr(e) ==>
            && (CanDecide(e.lhs) ==> ConjunctsAsked(e.rhs, names, g))
            && (CanDecide(e.rhs) ==> ConjunctsAsked(e.lhs, names, g)))
  }

  lemma {:induction false} EachAsked(e: Expr, names: Names, g: Graph)
    requires ConjunctsAsked(e, names, g)
    ensures forall c | c in ConjunctsOf(e) :: ConjunctAsked(c, names, g) && ConjunctsAsked(c, names, g)
  {
    if IsAnd(e) {
      EachAsked(e.lhs, names, g);
      EachAsked(e.rhs, names, g);
    }
  }

  ghost predicate AllConjunctsAsked(es: seq<Expr>, names: Names, g: Graph) {
    forall e | e in es :: ConjunctsAsked(e, names, g)
  }

  /** SKIP is counted in the bound a sort is told, and the bound does not
      saturate. */
  ghost predicate CountAsked(skip: Option<Expr>, limit: Option<Expr>, most: nat, env: Env) {
    SkipCounted(skip, limit, most, env) && StaticBound(skip, limit, most) != Some(most)
  }

  // ----- what is asked of operators -----

  ghost predicate HopAsked(src: VarId, rel: VarId, dst: VarId, names: Names) {
    rel != src && rel != dst && rel in names.scanned && (src, rel, dst) in names.hops
  }

  ghost predicate OpAsked(op: LogicalOp, names: Names, most: nat, env: Env) {
    if op.Filter? then ConjunctsAsked(op.pred, names, env.graph)
    else if op.NodeScan? then op.v in names.scanned
    else if op.NodeSeek? then op.v in names.scanned && (op.access.ByRange? ==> op.access.nulls.None?)
    else if op.Expand? then op.relVar.Some? ==> HopAsked(op.src, op.relVar.value, op.dst, names)
    else if op.Limit? then CountAsked(op.skip, op.limit, most, env)
    else op.Sort? ==> op.topK.None? && op.bound.None? && op.presorted == 0
  }

  ghost predicate AllAsked(nodes: seq<LogicalOp>, names: Names, most: nat, env: Env) {
    forall k | 0 <= k < |nodes| :: OpAsked(nodes[k], names, most, env)
  }

  /** The way from a sort down to the scan that may serve it is as asked. */
  ghost predicate SortAsked(nodes: seq<LogicalOp>, i: nat, names: Names)
    requires Topological(nodes) && i < |nodes|
  {
    nodes[i].Sort? ==>
      && nodes[i].input < i
      && (Layered(nodes, nodes[i].input) ==>
            PathAsked(nodes, nodes[i].input, LeadVars(nodes[i].keys), names.scanned))
  }

  ghost predicate SortsAsked(nodes: seq<LogicalOp>, names: Names)
    requires Topological(nodes)
  {
    forall i | 0 <= i < |nodes| :: SortAsked(nodes, i, names)
  }

  // ----- pushing operators -----

  /** Operators that are no sorts leave every sort as it was. */
  lemma SortsStay(a: seq<LogicalOp>, b: seq<LogicalOp>, names: Names)
    requires Topological(a) && Topological(b) && |a| <= |b| && b[..|a|] == a && SortsAsked(a, names)
    requires forall k | |a| <= k < |b| :: !b[k].Sort?
    ensures SortsAsked(b, names)
  {
    forall i | 0 <= i < |b| ensures SortAsked(b, i, names) {
      if i < |a| { OldSort(a, b, i, names); }
    }
  }

  // ----- the conjuncts of a filter -----

  lemma {:induction false} AskedAnd(es: seq<Expr>, names: Names, g: Graph)
    requires AllConjunctsAsked(es, names, g)
    ensures AndAll(es).Some? ==> ConjunctsAsked(AndAll(es).value, names, g)
    decreases |es|
  {
    if |es| > 1 {
      var all := AndAll(es).value;
      forall e | e in es[..|es| - 1] ensures ConjunctsAsked(e, names, g) { assert e in es; }
      AskedAnd(es[..|es| - 1], names, g);
      assert all.rhs in es;
    }
  }

  ghost predicate WhereAsked(where: Option<Expr>, names: Names, g: Graph) {
    where.Some? ==> ConjunctsAsked(where.value, names, g)
  }

  lemma ConjunctsOfAsked(where: Option<Expr>, names: Names, g: Graph)
    requires WhereAsked(where, names, g)
    ensures AllConjunctsAsked(ConjunctsOfWhere(where), names, g)
  {
    if where.Some? { EachAsked(where.value, names, g); }
  }

  ghost predicate PendingAsked(ps: seq<Pending>, names: Names, g: Graph) {
    forall p | p in ps :: ConjunctsAsked(p.expr, names, g)
  }

  lemma {:induction false} SplitPending(ps: seq<Pending>, available: set<VarId>)
    ensures forall p | p in Ready(ps, available) :: p in ps
    ensures forall p | p in Waiting(ps, available) :: p in ps
  {
    if ps != [] { SplitPending(ps[1..], available); }
  }

  // ----- MATCH -----

  /** From `n` on no projection and no sort, and filters over what is there. */
  ghost predicate MatchOps(nodes: seq<LogicalOp>, n: nat) {
    n <= |nodes| && forall k | n <= k < |nodes| ::
      !nodes[k].Projection? && !nodes[k].Sort? && (nodes[k].Filter? ==> n <= nodes[k].input < k)
  }

  ghost predicate StateAsked(st: State, n: nat, names: Names, most: nat, env: Env) {
    AllAsked(st.nodes, names, most, env) && PendingAsked(st.pending, names, env.graph) && MatchOps(st.nodes, n)
  }

  ghost predicate PlanAsked(p: Planned, n: nat, names: Names, most: nat, env: Env) {
    StateAsked(p.st, n, names, most, env) && n <= p.node < |p.st.nodes|
  }

  lemma AttachAsked(p: Planned, checks: seq<Expr>, n: nat, names: Names, most: nat, env: Env)
    requires PlanAsked(p, n, names, most, env) && AllConjunctsAsked(checks, names, env.graph)
    ensures PlanAsked(AttachReady(p, checks), n, names, most, env)
  {
    var ready := Ready(p.st.pending, p.st.available);
    SplitPending(p.st.pending, p.st.available);
    forall e | e in checks + Exprs(ready) ensures ConjunctsAsked(e, names, env.graph) {
      if e !in checks {
        var i :| 0 <= i < |ready| && e == ready[i].expr;
        assert ready[i] in ready;
      }
    }
    AskedAnd(checks + Exprs(ready), names, env.graph);
  }

  lemma BindAsked(
    st: State, op: LogicalOp, binds: set<VarId>, checks: seq<Expr>, n: nat, names: Names, most: nat, env: Env)
    requires StateAsked(st, n, names, most, env) && OpAsked(op, names, most, env)
    requires !op.Filter? && !op.Projection? && !op.Sort?
    requires AllConjunctsAsked(checks, names, env.graph)
    ensures PlanAsked(AttachReady(Bind(st, op, binds), checks), n, names, most, env)
  {
    AttachAsked(Bind(st, op, binds), checks, n, names, most, env);
  }

  ghost predicate StepsAsked(src: VarId, steps: seq<ChainStep>, names: Names, g: Graph)
    decreases |steps|
  {
    steps == [] ||
    (var s := steps[0];
     && (s.rel.v.Some? ==>
           && s.rel.v.value != src && s.rel.v.value != s.node.v && s.rel.v.value in names.scanned
           && (src, s.rel.v.value, s.node.v) in names.hops)
     && AllConjunctsAsked(StepChecks(s), names, g) && StepsAsked(s.node.v, steps[1..], names, g))
  }

  /** A chain, the way it is walked. */
  ghost predicate ChainAsked(c: Chain, names: Names, g: Graph) {
    c.head.v in names.scanned && AllConjunctsAsked(NodeChecks(c.head), names, g) && StepsAsked(c.head.v, c.steps, names, g)
  }

  ghost predicate PartsAsked(parts: seq<Part>, names: Names, g: Graph)
  {
    parts == [] ||
    (ChainAsked(Walked(parts[0]), names, g) && PartsAsked(parts[1..], names, g))
  }

  lemma {:induction false} StepsOps(
    p: Planned, src: VarId, steps: seq<ChainStep>, n: nat, names: Names, most: nat, env: Env)
    requires PlanAsked(p, n, names, most, env) && StepsAsked(src, steps, names, env.graph)
    ensures PlanAsked(PlanSteps(p, src, steps), n, names, most, env)
    decreases |steps|
  {
    if steps != [] {
      var s := steps[0];
      BindAsked(p.st, Expand(p.node, src, s.rel.v, s.node.v, s.rel.types, s.rel.direction, s.rel.props),
                StepVars(s), StepChecks(s), n, names, most, env);
      StepsOps(PlanStep(p, src, s), s.node.v, steps[1..], n, names, most, env);
    }
  }

  lemma PartOps(
    st: State, input: Option<nat>, part: Part, n: nat, names: Names, most: nat, env: Env)
    requires StateAsked(st, n, names, most, env) && ChainAsked(Walked(part), names, env.graph)
    ensures PlanAsked(PlanPart(st, input, part), n, names, most, env)
  {
    var c := Walked(part);
    BindAsked(st, NodeScan(input, c.head.v, c.head.labels), {c.head.v}, NodeChecks(c.head), n, names, most, env);
    StepsOps(PlanNode(st, input, c.head), c.head.v, c.steps, n, names, most, env);
    if part.binding.Some? {
      var p := PlanChain(st, input, c);
      BindAsked(p.st, PathBuild(p.node, part.binding.value, NodeVarsOf(part.chain), RelVarsOf(part.chain.steps)),
                {part.binding.value}, [], n, names, most, env);
    }
  }

  lemma {:induction false} PartsOps(
    p: Planned, parts: seq<Part>, n: nat, names: Names, most: nat, env: Env)
    requires PlanAsked(p, n, names, most, env) && PartsAsked(parts, names, env.graph)
    ensures PlanAsked(PlanParts(p, parts), n, names, most, env)
    decreases |parts|
  {
    if parts != [] {
      PartOps(p.st, Some(p.node), parts[0], n, names, most, env);
      PartsOps(PlanPart(p.st, Some(p.node), parts[0]), parts[1..], n, names, most, env);
    }
  }

  lemma PlacedAsked(where: Option<Expr>, parts: seq<Part>, names: Names, g: Graph)
    requires WhereAsked(where, names, g)
    ensures PendingAsked(ToPlace(ConjunctsOfWhere(where), 0, PatternVars(parts)), names, g)
  {
    ConjunctsOfAsked(where, names, g);
    ToPlaceIn(ConjunctsOfWhere(where), 0, PatternVars(parts));
  }

  lemma {:induction false} ToPlaceIn(cs: seq<Expr>, from: nat, pv: set<VarId>)
    ensures forall p | p in ToPlace(cs, from, pv) :: p.expr in cs
    decreases |cs|
  {
    if cs != [] { ToPlaceIn(cs[1..], from + 1, pv); }
  }

  /** The pattern, before the residual filter. */
  lemma WhereOps(
    nodes: seq<LogicalOp>, input: Option<nat>, parts: seq<Part>, where: Option<Expr>,
    names: Names, most: nat, env: Env)
    requires parts != [] && AllAsked(nodes, names, most, env)
    requires PartsAsked(parts, names, env.graph) && WhereAsked(where, names, env.graph)
    ensures PlanAsked(PlanWithWhere(nodes, input, parts, where).planned, |nodes|, names, most, env)
  {
    var st := Initial(nodes, ToPlace(ConjunctsOfWhere(where), 0, PatternVars(parts)));
    PlacedAsked(where, parts, names, env.graph);
    PartOps(st, input, parts[0], |nodes|, names, most, env);
    PartsOps(PlanPart(st, input, parts[0]), parts[1..], |nodes|, names, most, env);
  }

  lemma ResidualAsked(
    nodes: seq<LogicalOp>, input: Option<nat>, parts: seq<Part>, where: Option<Expr>,
    names: Names, x: Exec)
    requires Topological(nodes) && (input.Some? ==> input.value < |nodes|)
    requires PathsFresh(parts, {}) && WhereAsked(where, names, x.env.graph)
    ensures var residual := PlanWithWhere(nodes, input, parts, where).residual;
      AndAll(residual).Some? ==> ConjunctsAsked(AndAll(residual).value, names, x.env.graph)
  {
    var m, cs := PlanWithWhere(nodes, input, parts, where), ConjunctsOfWhere(where);
    EachConjunctOnce(nodes, input, parts, where, x);
    ConjunctsOfAsked(where, names, x.env.graph);
    forall e | e in m.residual ensures ConjunctsAsked(e, names, x.env.graph) {
      assert e in multiset(m.residual);
      assert e in multiset(cs);
    }
    AskedAnd(m.residual, names, x.env.graph);
  }

  /** A planned MATCH: its operators are asked for, and no projection lies
      under its top. */
  lemma MatchAsked(
    nodes: seq<LogicalOp>, input: Option<nat>, parts: seq<Part>, where: Option<Expr>,
    names: Names, most: nat, x: Exec)
    requires Topological(nodes) && (input.Some? ==> input.value < |nodes|)
    requires parts != [] && PathsFresh(parts, {}) && AllAsked(nodes, names, most, x.env)
    requires PartsAsked(parts, names, x.env.graph) && WhereAsked(where, names, x.env.graph)
    ensures var q := PlanMatch(nodes, input, parts, where);
      AllAsked(q.st.nodes, names, most, x.env) && MatchOps(q.st.nodes, |nodes|) && |nodes| <= q.node < |q.st.nodes|
  {
    var m := PlanWithWhere(nodes, input, parts, where);
    WhereOps(nodes, input, parts, where, names, most, x.env);
    ResidualAsked(nodes, input, parts, where, names, x);
    SameResidual(nodes, input, parts, where);
    ResidualOps(m.planned, m.residual, |nodes|, names, most, x.env);
  }

  lemma ResidualOps(p: Planned, residual: seq<Expr>, n: nat, names: Names, most: nat, env: Env)
    requires PlanAsked(p, n, names, most, env)
    requires AndAll(residual).Some? ==> ConjunctsAsked(AndAll(residual).value, names, env.graph)
    ensures PlanAsked(WithResidual(p, residual), n, names, most, env)
  {}

  lemma {:induction false} MatchNotLayered(nodes: seq<LogicalOp>, n: nat, id: nat)
    requires Topological(nodes) && MatchOps(nodes, n) && n <= id < |nodes|
    ensures !Layered(nodes, id)
    decreases id
  {
    if nodes[id].Filter? { MatchNotLayered(nodes, n, nodes[id].input); }
  }

  // ----- WITH and RETURN -----

  /** What may be said of the node operators are pushed on: whether filters
      and projections lead from it to a scan, whether through a projection,
      and whether the way is as asked for keys over `scope`, or any. */
  datatype Under = Under(reaches: bool, layered: bool, fine: bool, scope: Option<set<VarId>>)

  predicate InScope(vars: set<VarId>, scope: Option<set<VarId>>) { scope.Some? ==> vars <= scope.value }

  /** No projection leads to a scan. */
  function Clear(): Under { Under(true, false, true, None) }

  ghost function StepUnder(op: LogicalOp, u: Under, names: Names): Under {
    if op.Projection? then
      var reaches := u.reaches && !op.distinct;
      var asked := u.fine && ItemsAsked(op.items, names.scanned) && InScope(ItemKeyVars(op.items), u.scope);
      var scope := if !op.includeExisting then Some(Outputs(op.items))
        else if u.scope.None? then None else Some(u.scope.value + Outputs(op.items));
      Under(reaches, reaches, reaches ==> asked, scope)
    else Under(false, false, true, None)
  }

  ghost function EndUnder(ops: seq<LogicalOp>, u: Under, names: Names): Under
    decreases |ops|
  {
    if ops == [] then u else EndUnder(ops[1..], StepUnder(ops[0], u, names), names)
  }

  ghost predicate SortFits(op: LogicalOp, u: Under)
    requires op.Sort?
  {
    u.layered ==> u.fine && InScope(LeadVars(op.keys), u.scope)
  }

  /** The way down from every sort among the operators is as asked. */
  ghost predicate SortsFit(ops: seq<LogicalOp>, u: Under, names: Names)
    decreases |ops|
  {
    ops == [] || ((ops[0].Sort? ==> SortFits(ops[0], u)) && SortsFit(ops[1..], StepUnder(ops[0], u, names), names))
  }

  ghost predicate UnderFits(nodes: seq<LogicalOp>, id: nat, u: Under, names: Names) {
    && Topological(nodes) && id < |nodes|
    && (Reaches(nodes, id) ==> u.reaches) && (Layered(nodes, id) ==> u.layered)
    && (u.fine ==> forall scope | InScope(scope, u.scope) :: PathAsked(nodes, id, scope, names.scanned))
  }

  lemma PushedPath(
    nodes: seq<LogicalOp>, input: nat, op: LogicalOp, u: Under, names: Names, scope: set<VarId>)
    requires op.Projection? && UnderFits(nodes, input, u, names) && Topological(nodes + [WithInput(op, input)])
    requires StepUnder(op, u, names).fine && InScope(scope, StepUnder(op, u, names).scope)
    ensures PathAsked(nodes + [WithInput(op, input)], |nodes|, scope, names.scanned)
  {
    var next := nodes + [WithInput(op, input)];
    var inner := (scope - Outputs(op.items)) + ItemKeyVars(op.items);
    PathAgrees(nodes, next, input, inner, names.scanned);
    if Reaches(next, |nodes|) { assert InScope(inner, u.scope); }
  }

  lemma PushedUnder(nodes: seq<LogicalOp>, input: nat, op: LogicalOp, u: Under, names: Names)
    requires ClauseOp(op) && UnderFits(nodes, input, u, names)
    ensures UnderFits(nodes + [WithInput(op, input)], |nodes|, StepUnder(op, u, names), names)
  {
    var next, v := nodes + [WithInput(op, input)], StepUnder(op, u, names);
    assert forall c | c in Inputs(WithInput(op, input)) :: c == input;
    PushTopological(nodes, WithInput(op, input));
    PathAgrees(nodes, next, input, {}, names.scanned);
    if op.Projection? && v.fine {
      forall scope | InScope(scope, v.scope) ensures PathAsked(next, |nodes|, scope, names.scanned) {
        PushedPath(nodes, input, op, u, names, scope);
      }
    }
  }

  lemma PushedSort(nodes: seq<LogicalOp>, input: nat, op: LogicalOp, u: Under, names: Names)
    requires ClauseOp(op) && UnderFits(nodes, input, u, names) && SortsAsked(nodes, names)
    requires op.Sort? ==> SortFits(op, u)
    requires Topological(nodes + [WithInput(op, input)])
    ensures SortsAsked(nodes + [WithInput(op, input)], names)
  {
    var next := nodes + [WithInput(op, input)];
    forall i | 0 <= i < |next| ensures SortAsked(next, i, names) {
      if i < |nodes| {
        OldSort(nodes, next, i, names);
      } else if op.Sort? {
        PathAgrees(nodes, next, input, LeadVars(op.keys), names.scanned);
      }
    }
  }

  lemma OldSort(a: seq<LogicalOp>, b: seq<LogicalOp>, i: nat, names: Names)
    requires Topological(a) && Topological(b) && i < |a| <= |b| && b[..|a|] == a && SortsAsked(a, names)
    ensures SortAsked(b, i, names)
  {
    if b[i].Sort? {
      assert b[i] == a[i] && SortAsked(a, i, names);
      PathAgrees(a, b, a[i].input, LeadVars(a[i].keys), names.scanned);
    }
  }

  lemma {:induction false} PushAllAsked(
    nodes: seq<LogicalOp>, input: nat, ops: seq<LogicalOp>, u: Under, names: Names, most: nat, env: Env)
    requires UnderFits(nodes, input, u, names) && SortsFit(ops, u, names)
    requires AllAsked(nodes, names, most, env) && SortsAsked(nodes, names)
    requires forall i | 0 <= i < |ops| :: ClauseOp(ops[i]) && OpAsked(ops[i], names, most, env)
    ensures var (out, id) := PushAll(nodes, input, ops);
      UnderFits(out, id, EndUnder(ops, u, names), names) && AllAsked(out, names, most, env) && SortsAsked(out, names)
    decreases |ops|
  {
    if ops != [] {
      var op := WithInput(ops[0], input);
      PushedUnder(nodes, input, ops[0], u, names);
      PushedSort(nodes, input, ops[0], u, names);
      assert OpAsked(op, names, most, env);
      assert forall i | 0 <= i < |ops[1..]| :: ops[1..][i] == ops[i + 1];
      PushAllAsked(nodes + [op], |nodes|, ops[1..], StepUnder(ops[0], u, names), names, most, env);
    }
  }

  lemma {:induction false} UnderConcat(a: seq<LogicalOp>, b: seq<LogicalOp>, u: Under, names: Names)
    ensures EndUnder(a + b, u, names) == EndUnder(b, EndUnder(a, u, names), names)
    ensures SortsFit(a + b, u, names) <==> SortsFit(a, u, names) && SortsFit(b, EndUnder(a, u, names), names)
    decreases |a|
  {
    if a == [] { assert a + b == b; } else {
      assert (a + b)[1..] == a[1..] + b;
      UnderConcat(a[1..], b, StepUnder(a[0], u, names), names);
    }
  }

  /** Once nothing leads to a scan, nothing pushed later does. */
  lemma {:induction false} CutOff(ops: seq<LogicalOp>, u: Under, names: Names)
    requires !u.reaches && !u.layered
    ensures SortsFit(ops, u, names) && !EndUnder(ops, u, names).reaches && !EndUnder(ops, u, names).layered
    decreases |ops|
  {
    if ops != [] { CutOff(ops[1..], StepUnder(ops[0], u, names), names); }
  }

  /** A clause that only projects leaves a projection on top. */
  predicate OnlyProjects(c: Clause) {
    !Grouped(c) && !c.distinct && c.order == [] && c.skip.None? && c.limit.None?
  }

  /** SKIP and LIMIT are counted, and a key that orders rows reads only what
      is in scope and means the same down to the scan. */
  ghost predicate ColumnsAsked(c: Clause, u: Under, names: Names, most: nat, env: Env) {
    && (c.skip.Some? || c.limit.Some? ==> CountAsked(c.skip, c.limit, most, env))
    && (c.order != [] && !Grouped(c) && !c.distinct ==> KeysAsked(c, u, names))
  }

  ghost predicate KeysAsked(c: Clause, u: Under, names: Names) {
    && u.fine && ItemsAsked(c.items, names.scanned) && InScope(ItemKeyVars(c.items), u.scope)
    && (u.scope.Some? ==> LeadVars(KeysOnReads(c.order, c.items)) <= u.scope.value + Outputs(c.items))
  }

  lemma OneStep(op: LogicalOp, u: Under, names: Names)
    ensures EndUnder([op], u, names) == StepUnder(op, u, names)
    ensures SortsFit([op], u, names) <==> (op.Sort? ==> SortFits(op, u))
  {
    assert [op][1..] == [];
  }

  lemma OrderedUnder(c: Clause, u: Under, names: Names)
    requires !Grouped(c) && !c.distinct && c.order != [] && KeysAsked(c, u, names)
    ensures SortsFit(ClauseOps(c), u, names) && !EndUnder(ClauseOps(c), u, names).layered
  {
    var p, s := Projection(0, false, c.items, true), Sort(0, KeysOnReads(c.order, c.items), None, None, 0);
    var rest := LimitOps(c) + (if c.includeExisting then [] else [TrimOp(c)]);
    assert ClauseOps(c) == [p] + ([s] + rest);
    var v := StepUnder(p, u, names);
    UnderConcat([p], [s] + rest, u, names);
    UnderConcat([s], rest, v, names);
    OneStep(p, u, names);
    OneStep(s, v, names);
    CutOff(rest, StepUnder(s, v, names), names);
  }

  lemma UnorderedUnder(c: Clause, u: Under, names: Names)
    requires !Grouped(c) && !c.distinct && c.order == []
    ensures SortsFit(ClauseOps(c), u, names)
    ensures !OnlyProjects(c) ==> !EndUnder(ClauseOps(c), u, names).layered
    ensures OnlyProjects(c) ==> EndUnder(ClauseOps(c), u, names) == ColumnsUnder(c, u, names)
  {
    var p := Projection(0, false, c.items, c.includeExisting);
    assert ProjectionOps(c, []) == [p];
    UnderConcat(LimitOps(c), [p], u, names);
    if c.skip.Some? || c.limit.Some? {
      OneStep(Limit(0, c.skip, c.limit), u, names);
      CutOff([p], EndUnder(LimitOps(c), u, names), names);
    } else {
      assert LimitOps(c) == [];
      OneStep(p, u, names);
    }
  }

  lemma GroupedUnder(c: Clause, u: Under, names: Names)
    requires Grouped(c) || c.distinct
    ensures SortsFit(ClauseOps(c), u, names) && !EndUnder(ClauseOps(c), u, names).layered
  {
    var base := ProjectionOps(c, Kept(c));
    var rest := SortOps(KeysOnOutputs(c.order, c.items)) + LimitOps(c) + (if Kept(c) == [] then [] else [TrimOp(c)]);
    assert ClauseOps(c) == base + rest;
    UnderConcat(base, rest, u, names);
    assert base == [base[0]] + base[1..];
    UnderConcat([base[0]], base[1..], u, names);
    OneStep(base[0], u, names);
    CutOff(base[1..], StepUnder(base[0], u, names), names);
    CutOff(rest, EndUnder(base, u, names), names);
  }

  /** After a clause that only projects, its projection; after any other no
      projection leads to a scan. */
  ghost function ColumnsUnder(c: Clause, u: Under, names: Names): Under {
    if OnlyProjects(c) then StepUnder(Projection(0, false, c.items, c.includeExisting), u, names) else Clear()
  }

  lemma ClauseUnder(c: Clause, u: Under, names: Names, most: nat, env: Env)
    requires ColumnsAsked(c, u, names, most, env)
    ensures SortsFit(ClauseOps(c), u, names)
    ensures !OnlyProjects(c) ==> !EndUnder(ClauseOps(c), u, names).layered
    ensures OnlyProjects(c) ==> EndUnder(ClauseOps(c), u, names) == ColumnsUnder(c, u, names)
  {
    if Grouped(c) || c.distinct { GroupedUnder(c, u, names); }
    else if c.order == [] { UnorderedUnder(c, u, names); }
    else { OrderedUnder(c, u, names); }
  }

  lemma LimitAsked(c: Clause, u: Under, names: Names, most: nat, env: Env)
    requires ColumnsAsked(c, u, names, most, env)
    ensures forall op | op in LimitOps(c) :: OpAsked(op, names, most, env)
  {}

  lemma OthersAsked(c: Clause, kept: seq<Item>, keys: seq<SortKey>, names: Names, most: nat, env: Env)
    ensures forall op | op in ProjectionOps(c, kept) + SortOps(keys) :: OpAsked(op, names, most, env)
  {}

  lemma ClauseOpsAsked(c: Clause, u: Under, names: Names, most: nat, env: Env)
    requires ColumnsAsked(c, u, names, most, env)
    ensures forall i | 0 <= i < |ClauseOps(c)| :: ClauseOp(ClauseOps(c)[i]) && OpAsked(ClauseOps(c)[i], names, most, env)
  {
    ClauseOpsOnly(c);
    LimitAsked(c, u, names, most, env);
    OthersAsked(c, Kept(c), KeysOnOutputs(c.order, c.items), names, most, env);
    OthersAsked(c, [], KeysOnReads(c.order, c.items), names, most, env);
    forall op | op in ClauseOps(c) ensures OpAsked(op, names, most, env) {}
  }

  // ----- whole queries -----

  /** A filter over projections keeps the way as asked where it reads what is
      in scope and no OR in it reads several variables. */
  ghost function FilterUnder(where: Option<Expr>, u: Under, names: Names): Under {
    match where
    case None => u
    case Some(pred) =>
      u.(fine := u.fine && (u.layered ==> SoleOr(pred)) && InScope(Vars(pred) * names.scanned, u.scope))
  }

  /** What lies on top after the clause. */
  ghost function AfterClause(c: QueryClause, u: Under, names: Names): Under {
    match c
    case WithClause(columns, where) => FilterUnder(where, ColumnsUnder(columns, u, names), names)
    case ReturnClause(columns) => ColumnsUnder(columns, u, names)
    case _ => Clear()
  }

  /** Conjuncts and patterns are as asked, SKIP and LIMIT are counted, and the
      keys of ORDER BY mean the same through the clauses before it that only
      project. */
  ghost predicate ClausesAsked(cs: seq<QueryClause>, u: Under, names: Names, most: nat, env: Env)
    decreases cs, 0
  {
    cs == [] ||
    (ClauseAsked(cs[0], u, names, most, env) && ClausesAsked(cs[1..], AfterClause(cs[0], u, names), names, most, env))
  }

  ghost predicate ClauseAsked(c: QueryClause, u: Under, names: Names, most: nat, env: Env)
    decreases c, 0
  {
    match c
    case MatchClause(_, parts, where) =>
      && parts != [] && PathsFresh(parts, {}) && PartsAsked(parts, names, env.graph)
      && WhereAsked(where, names, env.graph)
    case UnwindClause(_, _) => true
    case WithClause(columns, where) =>
      ColumnsAsked(columns, u, names, most, env) && WhereAsked(where, names, env.graph)
    case ReturnClause(columns) => ColumnsAsked(columns, u, names, most, env)
    case CallClause(body, unions, _) =>
      ClausesAsked(body, Clear(), names, most, env) && UnionsAsked(unions, names, most, env)
  }

  ghost predicate UnionsAsked(bs: seq<CallBranch>, names: Names, most: nat, env: Env)
    decreases bs, 0
  {
    bs == [] || (ClausesAsked(bs[0].body, Clear(), names, most, env) && UnionsAsked(bs[1..], names, most, env))
  }

  /** The arena so far, and what may be said of its top. */
  ghost predicate ArenaAsked(nodes: seq<LogicalOp>, names: Names, most: nat, env: Env) {
    Topological(nodes) && AllAsked(nodes, names, most, env) && SortsAsked(nodes, names)
  }

  lemma PushedAsked(nodes: seq<LogicalOp>, op: LogicalOp, names: Names, most: nat, env: Env)
    requires ArenaAsked(nodes, names, most, env) && InputsBelow(op, |nodes|)
    requires OpAsked(op, names, most, env) && !op.Sort?
    ensures ArenaAsked(nodes + [op], names, most, env)
    ensures !op.Filter? && !op.Projection? ==> UnderFits(nodes + [op], |nodes|, Clear(), names)
  {
    PushTopological(nodes, op);
    SortsStay(nodes, nodes + [op], names);
    if !op.Filter? && !op.Projection? { FlatFits(nodes + [op], |nodes|, names); }
  }

  lemma FlatFits(nodes: seq<LogicalOp>, id: nat, names: Names)
    requires Topological(nodes) && id < |nodes| && !Layered(nodes, id)
    ensures UnderFits(nodes, id, Clear(), names)
  {
    forall scope ensures PathAsked(nodes, id, scope, names.scanned) { FlatPath(nodes, id, scope, names.scanned); }
  }

  lemma UnitAsked(nodes: seq<LogicalOp>, input: Option<nat>, u: Under, names: Names, most: nat, env: Env)
    requires ArenaAsked(nodes, names, most, env) && (input.Some? ==> UnderFits(nodes, input.value, u, names))
    ensures var (first, up) := OrUnit(nodes, input); ArenaAsked(first, names, most, env) && UnderFits(first, up, u, names)
  {
    if input.None? {
      assert InputsBelow(Argument, |nodes|);
      PushedAsked(nodes, Argument, names, most, env);
      UnitFits(nodes + [Argument], |nodes|, u, names);
    }
  }

  lemma UnitFits(nodes: seq<LogicalOp>, id: nat, u: Under, names: Names)
    requires Topological(nodes) && id < |nodes| && nodes[id].Argument?
    ensures UnderFits(nodes, id, u, names)
  {
    forall scope ensures PathAsked(nodes, id, scope, names.scanned) { FlatPath(nodes, id, scope, names.scanned); }
  }

  lemma ColumnsOps(
    nodes: seq<LogicalOp>, input: Option<nat>, c: Clause, u: Under, names: Names, most: nat, env: Env)
    requires ArenaAsked(nodes, names, most, env) && (input.Some? ==> UnderFits(nodes, input.value, u, names))
    requires ColumnsAsked(c, u, names, most, env)
    ensures var (first, up) := OrUnit(nodes, input);
      var (out, id) := PushAll(first, up, ClauseOps(c));
      ArenaAsked(out, names, most, env) && UnderFits(out, id, ColumnsUnder(c, u, names), names)
  {
    var (first, up) := OrUnit(nodes, input);
        UnitAsked(nodes, input, u, names, most, env);
    ClauseUnder(c, u, names, most, env);
    ClauseOpsAsked(c, u, names, most, env);
    PushAllAsked(first, up, ClauseOps(c), u, names, most, env);
    if !OnlyProjects(c) {
      FlatFits(PushAll(first, up, ClauseOps(c)).0, PushAll(first, up, ClauseOps(c)).1, names);
    }
  }

  lemma FilterOps(a: Site, where: Option<Expr>, u: Under, names: Names, most: nat, env: Env)
    requires ArenaAsked(a.0, names, most, env) && UnderFits(a.0, a.1, u, names) && WhereAsked(where, names, env.graph)
    ensures var (out, id) := PushWhere(a, where);
      ArenaAsked(out, names, most, env) && UnderFits(out, id, FilterUnder(where, u, names), names)
  {
    if where.Some? {
      var op := Filter(a.1, where.value);
      assert forall c | c in Inputs(op) :: c == a.1;
      PushedAsked(a.0, op, names, most, env);
      FilterFits(a.0, a.1, where.value, u, names);
    }
  }

  lemma FilterFits(nodes: seq<LogicalOp>, input: nat, pred: Expr, u: Under, names: Names)
    requires UnderFits(nodes, input, u, names) && Topological(nodes + [Filter(input, pred)])
    ensures UnderFits(nodes + [Filter(input, pred)], |nodes|, FilterUnder(Some(pred), u, names), names)
  {
    var next, v := nodes + [Filter(input, pred)], FilterUnder(Some(pred), u, names);
    PathAgrees(nodes, next, input, {}, names.scanned);
    if v.fine {
      forall scope | InScope(scope, v.scope) ensures PathAsked(next, |nodes|, scope, names.scanned) {
        PathAgrees(nodes, next, input, scope + Vars(pred) * names.scanned, names.scanned);
      }
    }
  }

  lemma MatchedOps(
    nodes: seq<LogicalOp>, input: Option<nat>, parts: seq<Part>, where: Option<Expr>,
    names: Names, most: nat, x: Exec)
    requires Start(nodes, input) && ArenaAsked(nodes, names, most, x.env)
    requires parts != [] && PathsFresh(parts, {})
    requires PartsAsked(parts, names, x.env.graph) && WhereAsked(where, names, x.env.graph)
    ensures var p := PlanMatch(nodes, input, parts, where);
      ArenaAsked(p.st.nodes, names, most, x.env) && UnderFits(p.st.nodes, p.node, Clear(), names)
  {
    var p := PlanMatch(nodes, input, parts, where);
    MatchGrows(nodes, input, parts, where);
    MatchAsked(nodes, input, parts, where, names, most, x);
    SortsStay(nodes, p.st.nodes, names);
    MatchNotLayered(p.st.nodes, |nodes|, p.node);
    FlatFits(p.st.nodes, p.node, names);
  }

  lemma OptionalOps(
    nodes: seq<LogicalOp>, input: Option<nat>, parts: seq<Part>, where: Option<Expr>,
    u: Under, names: Names, most: nat, x: Exec)
    requires Start(nodes, input) && ArenaAsked(nodes, names, most, x.env)
    requires input.Some? ==> UnderFits(nodes, input.value, u, names)
    requires parts != [] && PathsFresh(parts, {})
    requires PartsAsked(parts, names, x.env.graph) && WhereAsked(where, names, x.env.graph)
    ensures var (out, id) := PlanClause(nodes, input, MatchClause(true, parts, where));
      ArenaAsked(out, names, most, x.env) && UnderFits(out, id, Clear(), names)
  {
    var (first, up) := OrUnit(nodes, input);
    var p := PlanMatch(first, None, parts, where);
    UnitAsked(nodes, input, u, names, most, x.env);
    InnerMatchGrows(nodes, input, parts, where);
    MatchedOps(first, None, parts, where, names, most, x);
    OptionalPushed(p.st.nodes, up, p.node, Binders(parts), names, most, x.env);
  }

  lemma OptionalPushed(
    nodes: seq<LogicalOp>, up: nat, inner: nat, vars: seq<VarId>, names: Names, most: nat, env: Env)
    requires ArenaAsked(nodes, names, most, env) && up < |nodes| && inner < |nodes|
    ensures var out := nodes + [OptionalMatch(up, inner, vars)];
      ArenaAsked(out, names, most, env) && UnderFits(out, |nodes|, Clear(), names)
  {
    assert Inputs(OptionalMatch(up, inner, vars)) == [up, inner];
    PushedAsked(nodes, OptionalMatch(up, inner, vars), names, most, env);
  }

  /** Planning clauses that are as asked gives an arena that is. */
  lemma {:induction false} ClausesOps(
    nodes: seq<LogicalOp>, input: Option<nat>, cs: seq<QueryClause>, u: Under, names: Names, most: nat, x: Exec)
    requires Start(nodes, input) && ClausesAsked(cs, u, names, most, x.env)
    requires ArenaAsked(nodes, names, most, x.env) && (input.Some? ==> UnderFits(nodes, input.value, u, names))
    ensures ArenaAsked(PlanClauses(nodes, input, cs).0, names, most, x.env)
    decreases cs, 2
  {
    if cs == [] {
      UnitAsked(nodes, input, u, names, most, x.env);
    } else {
      var (next, id) := PlanClause(nodes, input, cs[0]);
      ClauseGrowsOn(nodes, input, cs[0]);
      ClausePlanned(nodes, input, cs[0], u, names, most, x);
      ClausesOps(next, Some(id), cs[1..], AfterClause(cs[0], u, names), names, most, x);
    }
  }

  lemma {:induction false} ClausePlanned(
    nodes: seq<LogicalOp>, input: Option<nat>, c: QueryClause, u: Under, names: Names, most: nat, x: Exec)
    requires Start(nodes, input) && ClauseAsked(c, u, names, most, x.env)
    requires ArenaAsked(nodes, names, most, x.env) && (input.Some? ==> UnderFits(nodes, input.value, u, names))
    ensures var (out, id) := PlanClause(nodes, input, c);
      ArenaAsked(out, names, most, x.env) && UnderFits(out, id, AfterClause(c, u, names), names)
    decreases c, 2
  {
    match c
    case MatchClause(false, parts, where) => MatchedOps(nodes, input, parts, where, names, most, x);
    case MatchClause(true, parts, where) =>
      OptionalOps(nodes, input, parts, where, u, names, most, x);
    case UnwindClause(expr, alias) =>
      var (first, up) := OrUnit(nodes, input);
      UnitAsked(nodes, input, u, names, most, x.env);
      assert Inputs(Unwind(up, expr, alias)) == [up];
      PushedAsked(first, Unwind(up, expr, alias), names, most, x.env);
    case WithClause(columns, where) =>
      var (first, up) := OrUnit(nodes, input);
      ColumnsOps(nodes, input, columns, u, names, most, x.env);
      FilterOps(PushAll(first, up, ClauseOps(columns)), where, ColumnsUnder(columns, u, names), names, most, x.env);
    case ReturnClause(columns) => ColumnsOps(nodes, input, columns, u, names, most, x.env);
    case CallClause(_, _, _) => CallOps(nodes, input, c, u, names, most, x);
  }

  lemma CallPushed(
    nodes: seq<LogicalOp>, input: Option<nat>, first: seq<LogicalOp>, up: nat, second: seq<LogicalOp>, inner: nat,
    third: seq<LogicalOp>, us: seq<UnionBranch>, heads: seq<VarId>, names: Names, most: nat, env: Env)
    requires Grown(nodes, input, first, up) && Grown(first, None, second, inner) && Queries.Beside(second, third, BranchIds(us))
    requires ArenaAsked(third, names, most, env)
    ensures var op := CallSubquery(up, inner, us, heads);
      ArenaAsked(third + [op], names, most, env) && UnderFits(third + [op], |third|, Clear(), names)
  {
    var op := CallSubquery(up, inner, us, heads);
    assert Inputs(op) == [up, inner] + BranchIds(us);
    PushedAsked(third, op, names, most, env);
  }

  lemma {:induction false} CallOps(
    nodes: seq<LogicalOp>, input: Option<nat>, c: QueryClause, u: Under, names: Names, most: nat, x: Exec)
    requires c.CallClause? && Start(nodes, input) && ClauseAsked(c, u, names, most, x.env)
    requires ArenaAsked(nodes, names, most, x.env) && (input.Some? ==> UnderFits(nodes, input.value, u, names))
    ensures var (out, id) := PlanClause(nodes, input, c);
      ArenaAsked(out, names, most, x.env) && UnderFits(out, id, Clear(), names)
    decreases c, 1
  {
    var (first, up) := OrUnit(nodes, input);
    var (second, inner) := PlanClauses(first, None, c.body);
    var (third, us) := PlanBranches(second, c.unions, c.returnVars);
    OrUnitGrows(nodes, input);
    UnitAsked(nodes, input, u, names, most, x.env);
    ClausesGrow(first, None, c.body);
    ClausesOps(first, None, c.body, Clear(), names, most, x);
    BranchesGrow(second, c.unions, c.returnVars);
    BranchesOps(second, c.unions, c.returnVars, names, most, x);
    CallPushed(nodes, input, first, up, second, inner, third, us, c.returnVars, names, most, x.env);
  }

  lemma BranchPushed(
    nodes: seq<LogicalOp>, next: seq<LogicalOp>, id: nat, items: seq<Item>, names: Names, most: nat, env: Env)
    requires Grown(nodes, None, next, id) && ArenaAsked(next, names, most, env)
    ensures var all := next + [Projection(id, false, items, false)]; ForestOf(all) && ArenaAsked(all, names, most, env)
  {
    var op := Projection(id, false, items, false);
    assert forall c | c in Inputs(op) :: c == id;
    Grow(next, Some(id), op);
    PushedAsked(next, op, names, most, env);
  }

  lemma {:induction false} BranchesOps(
    nodes: seq<LogicalOp>, bs: seq<CallBranch>, heads: seq<VarId>, names: Names, most: nat, x: Exec)
    requires ForestOf(nodes) && UnionsAsked(bs, names, most, x.env)
    requires ArenaAsked(nodes, names, most, x.env)
    ensures ArenaAsked(PlanBranches(nodes, bs, heads).0, names, most, x.env)
    decreases bs, 2
  {
    if bs != [] {
      var (next, id) := PlanClauses(nodes, None, bs[0].body);
      var all := next + [Projection(id, false, BranchColumns(bs[0], heads), false)];
      ClausesGrow(nodes, None, bs[0].body);
      ClausesOps(nodes, None, bs[0].body, Clear(), names, most, x);
      BranchPushed(nodes, next, id, BranchColumns(bs[0], heads), names, most, x.env);
      BranchesOps(all, bs[1..], heads, names, most, x);
      assert PlanBranches(nodes, bs, heads).0 == PlanBranches(all, bs[1..], heads).0;
    }
  }

  /** A whole query. */
  lemma QueryPlanned(cs: seq<QueryClause>, names: Names, most: nat, x: Exec)
    requires ClausesAsked(cs, Clear(), names, most, x.env)
    ensures ArenaAsked(PlanClauses([], None, cs).0, names, most, x.env)
  {
    ClausesOps([], None, cs, Clear(), names, most, x);
  }

  // ====================
  // The arena planned for well-scoped clauses is one the passes may start from: no
  // filter reads what the projection below it does not yield.

  // ----- well-scoped clauses -----

  ghost predicate Within(e: Option<Expr>, scope: set<VarId>) { e.Some? ==> Free(e.value) <= scope }

  /** A WHERE reads only what is in scope where it stands. */
  ghost predicate Scoped(c: QueryClause, scope: set<VarId>)
    decreases c, 0
  {
    match c
    case MatchClause(_, parts, where) => Within(where, scope + PatternVars(parts))
    case UnwindClause(_, _) => true
    case WithClause(columns, where) => Within(where, ColumnsBind(columns, scope))
    case ReturnClause(_) => true
    case CallClause(body, unions, _) => AllScoped(body, scope) && BranchesScoped(unions, scope)
  }

  ghost predicate AllScoped(cs: seq<QueryClause>, scope: set<VarId>)
    decreases cs, 0
  {
    cs == [] || (Scoped(cs[0], scope) && AllScoped(cs[1..], BoundAfter(cs[0], scope)))
  }

  ghost predicate BranchesScoped(bs: seq<CallBranch>, scope: set<VarId>)
    decreases bs, 0
  {
    bs == [] || (AllScoped(bs[0].body, scope) && BranchesScoped(bs[1..], scope))
  }

  // ----- pushing an operator -----

  /** The node's rows may have more than a projection settles. */
  ghost predicate Open(nodes: seq<LogicalOp>, id: nat) {
    Topological(nodes) && WellScoped(nodes) && id < |nodes| && Produces(nodes, id).None?
  }

  /** Where a projection settles the node's variables, `scope` is among them. */
  ghost predicate Tidy(nodes: seq<LogicalOp>, id: nat, scope: set<VarId>) {
    Topological(nodes) && WellScoped(nodes) && id < |nodes|
    && (Produces(nodes, id).Some? ==> scope <= Produces(nodes, id).value)
  }

  lemma {:induction false} ProducesAgrees(a: seq<LogicalOp>, b: seq<LogicalOp>, id: nat)
    requires Topological(a) && Topological(b) && AgreeUpTo(a, b, id)
    ensures Produces(a, id) == Produces(b, id)
    decreases id
  {
    if a[id].Filter? {
      assert a[id].input in Inputs(a[id]) && InputsBelow(a[id], id);
      ProducesAgrees(a, b, a[id].input);
    }
  }

  ghost predicate FilterScoped(nodes: seq<LogicalOp>, i: nat)
    requires Topological(nodes) && i < |nodes|
  {
    nodes[i].Filter? ==>
      nodes[i].input < |nodes| && Tidied(nodes, nodes[i].input, Free(nodes[i].pred))
  }

  ghost predicate Tidied(nodes: seq<LogicalOp>, id: nat, scope: set<VarId>)
    requires Topological(nodes) && id < |nodes|
  {
    Produces(nodes, id).Some? ==> scope <= Produces(nodes, id).value
  }

  lemma ScopedEach(nodes: seq<LogicalOp>)
    requires Topological(nodes)
    ensures WellScoped(nodes) <==> forall i | 0 <= i < |nodes| :: FilterScoped(nodes, i)
  {
    if forall i | 0 <= i < |nodes| :: FilterScoped(nodes, i) {
      forall i | 0 <= i < |nodes| && nodes[i].Filter?
        ensures nodes[i].input < |nodes|
        ensures Tidied(nodes, nodes[i].input, Free(nodes[i].pred))
      {
        assert FilterScoped(nodes, i);
      }
    }
  }

  lemma FilterStaysScoped(nodes: seq<LogicalOp>, out: seq<LogicalOp>, i: nat)
    requires Topological(nodes) && Topological(out) && i < |nodes| <= |out| && out[..|nodes|] == nodes
    requires FilterScoped(nodes, i)
    ensures FilterScoped(out, i)
  {
    if nodes[i].Filter? {
      assert nodes[i].input in Inputs(nodes[i]) && InputsBelow(nodes[i], i);
      ProducesAgrees(nodes, out, nodes[i].input);
    }
  }

  lemma PushScoped(nodes: seq<LogicalOp>, op: LogicalOp)
    requires Topological(nodes) && WellScoped(nodes) && InputsBelow(op, |nodes|)
    requires op.Filter? ==> Tidy(nodes, op.input, Free(op.pred))
    ensures Topological(nodes + [op]) && WellScoped(nodes + [op])
    ensures op.Filter? ==> Produces(nodes + [op], |nodes|) == Produces(nodes, op.input)
  {
    var out := nodes + [op];
    PushTopological(nodes, op);
    if op.Filter? { ProducesAgrees(nodes, out, op.input); }
    ScopedEach(nodes);
    PushFilterScoped(nodes, op);
    ScopedEach(out);
  }

  lemma PushFilterScoped(nodes: seq<LogicalOp>, op: LogicalOp)
    requires Topological(nodes) && Topological(nodes + [op])
    requires forall i | 0 <= i < |nodes| :: FilterScoped(nodes, i)
    requires op.Filter? ==> Tidy(nodes, op.input, Free(op.pred))
    requires op.Filter? ==> Produces(nodes + [op], op.input) == Produces(nodes, op.input)
    ensures forall i | 0 <= i < |nodes + [op]| :: FilterScoped(nodes + [op], i)
  {
    forall i | 0 <= i < |nodes + [op]| ensures FilterScoped(nodes + [op], i) {
      if i < |nodes| { FilterStaysScoped(nodes, nodes + [op], i); }
    }
  }

  lemma PushOpen(nodes: seq<LogicalOp>, op: LogicalOp)
    requires Topological(nodes) && WellScoped(nodes) && InputsBelow(op, |nodes|)
    requires !op.Filter? && !op.Projection?
    ensures Open(nodes + [op], |nodes|)
  {
    PushScoped(nodes, op);
  }

  lemma FilterOpen(nodes: seq<LogicalOp>, id: nat, pred: Expr)
    requires Open(nodes, id)
    ensures Open(nodes + [Filter(id, pred)], |nodes|)
  {
    PushScoped(nodes, Filter(id, pred));
  }

  // ----- patterns -----

  lemma AttachOpen(p: Planned, checks: seq<Expr>)
    requires Open(p.st.nodes, p.node)
    ensures var q := AttachReady(p, checks); Open(q.st.nodes, q.node)
  {
    match AndAll(checks + Exprs(Ready(p.st.pending, p.st.available)))
    case None =>
    case Some(pred) => FilterOpen(p.st.nodes, p.node, pred);
  }

  lemma BindOpen(st: State, op: LogicalOp, binds: set<VarId>, checks: seq<Expr>)
    requires Topological(st.nodes) && WellScoped(st.nodes) && InputsBelow(op, |st.nodes|)
    requires !op.Filter? && !op.Projection?
    ensures var q := AttachReady(Bind(st, op, binds), checks); Open(q.st.nodes, q.node)
  {
    PushOpen(st.nodes, op);
    AttachOpen(Bind(st, op, binds), checks);
  }

  lemma {:induction false} StepsOpen(p: Planned, src: VarId, steps: seq<ChainStep>)
    requires Open(p.st.nodes, p.node)
    ensures var q := PlanSteps(p, src, steps); Open(q.st.nodes, q.node)
    decreases |steps|
  {
    if steps != [] {
      var s := steps[0];
      BindOpen(p.st, Expand(p.node, src, s.rel.v, s.node.v, s.rel.types, s.rel.direction, s.rel.props),
               StepVars(s), StepChecks(s));
      StepsOpen(PlanStep(p, src, s), s.node.v, steps[1..]);
    }
  }

  lemma ChainOpen(st: State, input: Option<nat>, c: Chain)
    requires Topological(st.nodes) && WellScoped(st.nodes) && (input.Some? ==> input.value < |st.nodes|)
    ensures var q := PlanChain(st, input, c); Open(q.st.nodes, q.node)
  {
    BindOpen(st, NodeScan(input, c.head.v, c.head.labels), {c.head.v}, NodeChecks(c.head));
    StepsOpen(PlanNode(st, input, c.head), c.head.v, c.steps);
  }

  lemma PathOpen(p: Planned, part: Part)
    requires Open(p.st.nodes, p.node) && part.binding.Some?
    ensures var build := PathBuild(p.node, part.binding.value, NodeVarsOf(part.chain), RelVarsOf(part.chain.steps));
      var q := AttachReady(Bind(p.st, build, {part.binding.value}), []);
      Open(q.st.nodes, q.node)
  {
    BindOpen(p.st, PathBuild(p.node, part.binding.value, NodeVarsOf(part.chain), RelVarsOf(part.chain.steps)),
             {part.binding.value}, []);
  }

  lemma PartOpen(st: State, input: Option<nat>, part: Part)
    requires Topological(st.nodes) && WellScoped(st.nodes) && (input.Some? ==> input.value < |st.nodes|)
    ensures var q := PlanPart(st, input, part); Open(q.st.nodes, q.node)
  {
    ChainOpen(st, input, Walked(part));
    if part.binding.Some? { PathOpen(PlanChain(st, input, Walked(part)), part); }
  }

  lemma {:induction false} PartsOpen(p: Planned, parts: seq<Part>)
    requires Open(p.st.nodes, p.node)
    ensures var q := PlanParts(p, parts); Open(q.st.nodes, q.node)
    decreases |parts|
  {
    if parts != [] {
      PartOpen(p.st, Some(p.node), parts[0]);
      PartsOpen(PlanPart(p.st, Some(p.node), parts[0]), parts[1..]);
    }
  }

  lemma {:induction false} FreeOfConjunct(w: Expr, c: Expr)
    requires c in ConjunctsOf(w)
    ensures Free(c) <= Free(w)
  {
    if IsAnd(w) {
      if c in ConjunctsOf(w.lhs) { FreeOfConjunct(w.lhs, c); } else { FreeOfConjunct(w.rhs, c); }
    }
  }

  lemma {:induction false} FreeOfAll(es: seq<Expr>, scope: set<VarId>)
    requires forall e | e in es :: Free(e) <= scope
    ensures Within(AndAll(es), scope)
    decreases |es|
  {
    if |es| > 1 { FreeOfAll(es[..|es| - 1], scope); }
  }

  lemma {:induction false} KeptAreConjuncts(cs: seq<Expr>, from: nat, pv: set<VarId>)
    ensures forall e | e in Unnumbered(ToKeep(cs, from, pv)) :: e in cs
    decreases |cs|
  {
    if cs != [] {
      KeptAreConjuncts(cs[1..], from + 1, pv);
      var rest := ToKeep(cs[1..], from + 1, pv);
      forall i | 0 <= i < |rest| ensures rest[i].1 in cs[1..] {
        assert Unnumbered(rest)[i] == rest[i].1 && Unnumbered(rest)[i] in Unnumbered(rest);
      }
    }
  }

  lemma {:induction false} NothingToPlace(cs: seq<Expr>, from: nat)
    ensures ToPlace(cs, from, {}) == []
    decreases |cs|
  {
    if cs != [] { NothingToPlace(cs[1..], from + 1); }
  }

  /** What is left of a WHERE reads no more than the WHERE. */
  lemma ResidualWithin(where: Option<Expr>, scope: set<VarId>)
    requires Within(where, scope)
    ensures var cs := ConjunctsOfWhere(where);
      Within(AndAll(Unnumbered(SortByOrder(ToKeep(cs, 0, {}) + Numbered([])))), scope)
  {
    var cs := ConjunctsOfWhere(where);
    ResidualIsKept(cs, {});
    NothingToPlace(cs, 0);
    KeptAreConjuncts(cs, 0, {});
    forall c | c in cs ensures Free(c) <= scope { FreeOfConjunct(where.value, c); }
    FreeOfAll(Unnumbered(ToKeep(cs, 0, {})), scope);
  }

  // ----- clauses -----

  lemma UnitTidy(nodes: seq<LogicalOp>, input: Option<nat>, scope: set<VarId>)
    requires Topological(nodes) && WellScoped(nodes)
    requires input.Some? ==> Tidy(nodes, input.value, scope)
    ensures var (first, up) := OrUnit(nodes, input); Tidy(first, up, scope)
  {
    if input.None? { PushScoped(nodes, Argument); }
  }

  lemma ResidualTidy(p: Planned, residual: seq<Expr>, scope: set<VarId>)
    requires Tidy(p.st.nodes, p.node, scope)
    requires Produces(p.st.nodes, p.node).Some? ==> Within(AndAll(residual), scope)
    ensures AndAll(residual).Some? ==>
      Tidy(p.st.nodes + [Filter(p.node, AndAll(residual).value)], |p.st.nodes|, scope)
  {
    if AndAll(residual).Some? { PushScoped(p.st.nodes, Filter(p.node, AndAll(residual).value)); }
  }

  lemma PatternTidy(
    nodes: seq<LogicalOp>, input: Option<nat>, parts: seq<Part>, where: Option<Expr>,
    scope: set<VarId>)
    requires Topological(nodes) && WellScoped(nodes)
    requires input.Some? ==> Tidy(nodes, input.value, scope)
    requires Within(where, scope + PatternVars(parts))
    ensures var p := PlanMatch(nodes, input, parts, where);
      Tidy(p.st.nodes, p.node, scope + PatternVars(parts))
  {
    var m := PlanWithWhere(nodes, input, parts, where);
    if parts == [] {
      NothingToPlace(ConjunctsOfWhere(where), 0);
      ResidualWithin(where, scope);
      UnitTidy(nodes, input, scope);
    } else {
      var st := Initial(nodes, ToPlace(ConjunctsOfWhere(where), 0, PatternVars(parts)));
      PartOpen(st, input, parts[0]);
      PartsOpen(PlanPart(st, input, parts[0]), parts[1..]);
    }
    ResidualTidy(m.planned, m.residual, scope + PatternVars(parts));
  }

  /** The columns a clause's last operator settles are its own. */
  ghost predicate Settles(op: LogicalOp, c: Clause) {
    !op.Filter?
    && (op.Projection? && !op.includeExisting ==>
          Outputs(op.items) == Outputs(c.items) && (Grouped(c) || !c.includeExisting))
  }

  lemma {:induction false} OutputsConcat(a: seq<Item>, b: seq<Item>)
    ensures Outputs(a + b) == Outputs(a) + Outputs(b)
  {
    if a == [] {
      assert a + b == b;
    } else {
      assert (a + b)[1..] == a[1..] + b;
      OutputsConcat(a[1..], b);
    }
  }

  lemma {:induction false} NoKeysNoColumns(lifted: seq<Item>)
    ensures KeptColumns(lifted, {}) == []
  {
    if lifted != [] { NoKeysNoColumns(lifted[1..]); }
  }

  lemma ProjectionSettles(c: Clause)
    requires Kept(c) == []
    ensures var ops := ProjectionOps(c, []); ops != [] && Settles(ops[|ops| - 1], c)
  {
    FinalOutputs(c.items, c.lifted);
    OutputsOfPassthrough(c.items);
    assert FinalItems(c.items, c.lifted) + Passthrough([]) == FinalItems(c.items, c.lifted);
  }

  lemma LastSettles(c: Clause)
    ensures ClauseOps(c) != [] && Settles(ClauseOps(c)[|ClauseOps(c)| - 1], c)
  {
    OutputsOfPassthrough(c.items);
    if Grouped(c) || c.distinct {
      if Kept(c) == [] {
        ProjectionSettles(c);
      }
    } else if c.order == [] {
      NoKeysNoColumns(c.lifted);
      ProjectionSettles(c);
    }
  }

  lemma {:induction false} OpsTidy(nodes: seq<LogicalOp>, input: nat, ops: seq<LogicalOp>, c: Clause, scope: set<VarId>)
    requires Topological(nodes) && WellScoped(nodes) && input < |nodes|
    requires ops != [] && Settles(ops[|ops| - 1], c) && forall op | op in ops :: ClauseOp(op)
    ensures var (out, id) := PushAll(nodes, input, ops); Tidy(out, id, ColumnsBind(c, scope))
    decreases |ops|
  {
    var op := WithInput(ops[0], input);
    assert ops[0] in ops;
    PushScoped(nodes, op);
    if |ops| > 1 {
      assert ops[1..][|ops[1..]| - 1] == ops[|ops| - 1];
      OpsTidy(nodes + [op], |nodes|, ops[1..], c, scope);
    } else {
      assert PushAll(nodes, input, ops) == (nodes + [op], |nodes|);
    }
  }

  lemma ColumnsTidy(nodes: seq<LogicalOp>, input: Option<nat>, c: Clause, scope: set<VarId>)
    requires Topological(nodes) && WellScoped(nodes)
    requires input.Some? ==> Tidy(nodes, input.value, scope)
    ensures var (first, up) := OrUnit(nodes, input);
      var (out, id) := PushAll(first, up, ClauseOps(c)); Tidy(out, id, ColumnsBind(c, scope))
  {
    var (first, up) := OrUnit(nodes, input);
    UnitTidy(nodes, input, scope);
    LastSettles(c);
    ClauseOpsOnly(c);
    OpsTidy(first, up, ClauseOps(c), c, scope);
  }

  lemma WhereTidy(a: Site, where: Option<Expr>, scope: set<VarId>)
    requires Tidy(a.0, a.1, scope) && Within(where, scope)
    ensures var (out, id) := PushWhere(a, where); Tidy(out, id, scope)
  {
    if where.Some? { PushScoped(a.0, Filter(a.1, where.value)); }
  }

  lemma TopOpen(nodes: seq<LogicalOp>, op: LogicalOp, scope: set<VarId>)
    requires Topological(nodes) && WellScoped(nodes) && InputsBelow(op, |nodes|)
    requires !op.Filter? && !op.Projection?
    ensures Tidy(nodes + [op], |nodes|, scope)
  {
    PushOpen(nodes, op);
  }

  lemma OptionalOpen(all: seq<LogicalOp>, up: nat, inner: nat, vars: seq<VarId>, scope: set<VarId>)
    requires Topological(all) && WellScoped(all) && up < |all| && inner < |all|
    ensures Tidy(all + [OptionalMatch(up, inner, vars)], |all|, scope)
  {
    TopOpen(all, OptionalMatch(up, inner, vars), scope);
  }

  lemma OptionalTidy(
    nodes: seq<LogicalOp>, input: Option<nat>, parts: seq<Part>, where: Option<Expr>,
    scope: set<VarId>)
    requires Start(nodes, input) && WellScoped(nodes)
    requires input.Some? ==> Tidy(nodes, input.value, scope)
    requires Within(where, scope + PatternVars(parts))
    ensures var (first, up) := OrUnit(nodes, input);
      var p := PlanMatch(first, None, parts, where);
      Tidy(p.st.nodes + [OptionalMatch(up, p.node, Binders(parts))], |p.st.nodes|, scope + PatternVars(parts))
  {
    var (first, up) := OrUnit(nodes, input);
    UnitTidy(nodes, input, scope);
    InnerMatchGrows(nodes, input, parts, where);
    PatternTidy(first, None, parts, where, scope);
    var p := PlanMatch(first, None, parts, where);
    OptionalOpen(p.st.nodes, up, p.node, Binders(parts), scope + PatternVars(parts));
  }

  // ----- whole queries -----

  /** Planning well-scoped clauses keeps every filter well scoped. */
  lemma {:induction false} ClausesTidy(
    nodes: seq<LogicalOp>, input: Option<nat>, cs: seq<QueryClause>, scope: set<VarId>)
    requires Start(nodes, input) && WellScoped(nodes) && AllScoped(cs, scope)
    requires input.Some? ==> Tidy(nodes, input.value, scope)
    ensures var (out, id) := PlanClauses(nodes, input, cs); Tidy(out, id, AllBoundAfter(cs, scope))
    decreases cs, 2
  {
    if cs == [] {
      UnitTidy(nodes, input, scope);
    } else {
      var (next, id) := PlanClause(nodes, input, cs[0]);
      ClauseGrowsOn(nodes, input, cs[0]);
      ClauseTidy(nodes, input, cs[0], scope);
      ClausesTidy(next, Some(id), cs[1..], BoundAfter(cs[0], scope));
    }
  }

  lemma {:induction false} ClauseTidy(
    nodes: seq<LogicalOp>, input: Option<nat>, c: QueryClause, scope: set<VarId>)
    requires Start(nodes, input) && WellScoped(nodes) && Scoped(c, scope)
    requires input.Some? ==> Tidy(nodes, input.value, scope)
    ensures var (out, id) := PlanClause(nodes, input, c); Tidy(out, id, BoundAfter(c, scope))
    decreases c, 2
  {
    match c
    case MatchClause(false, parts, where) => PatternTidy(nodes, input, parts, where, scope);
    case MatchClause(true, parts, where) =>
      OptionalTidy(nodes, input, parts, where, scope);
    case UnwindClause(expr, alias) =>
      var (first, up) := OrUnit(nodes, input);
      UnitTidy(nodes, input, scope);
      TopOpen(first, Unwind(up, expr, alias), scope + {alias});
    case WithClause(columns, where) =>
      var (first, up) := OrUnit(nodes, input);
      ColumnsTidy(nodes, input, columns, scope);
      WhereTidy(PushAll(first, up, ClauseOps(columns)), where, ColumnsBind(columns, scope));
    case ReturnClause(columns) => ColumnsTidy(nodes, input, columns, scope);
    case CallClause(_, _, _) => CallTidy(nodes, input, c, scope);
  }

  lemma {:induction false} CallTidy(
    nodes: seq<LogicalOp>, input: Option<nat>, c: QueryClause, scope: set<VarId>)
    requires c.CallClause? && Start(nodes, input) && WellScoped(nodes) && Scoped(c, scope)
    requires input.Some? ==> Tidy(nodes, input.value, scope)
    ensures var (out, id) := PlanClause(nodes, input, c); Tidy(out, id, BoundAfter(c, scope))
    decreases c, 1
  {
    var (first, up) := OrUnit(nodes, input);
    var (second, inner) := PlanClauses(first, None, c.body);
    var (third, branches) := PlanBranches(second, c.unions, c.returnVars);
    OrUnitGrows(nodes, input);
    UnitTidy(nodes, input, scope);
    ClausesGrow(first, None, c.body);
    ClausesTidy(first, None, c.body, scope);
    BranchesGrow(second, c.unions, c.returnVars);
    BranchesTidy(second, c.unions, c.returnVars, scope);
    CallGrows(nodes, input, first, up, second, inner, third, branches, c.returnVars);
    var op := CallSubquery(up, inner, branches, c.returnVars);
    assert InputsBelow((third + [op])[|third|], |third|);
    TopOpen(third, op, BoundAfter(c, scope));
  }

  lemma BranchTopTidy(nodes: seq<LogicalOp>, next: seq<LogicalOp>, id: nat, items: seq<Item>)
    requires Grown(nodes, None, next, id) && WellScoped(next)
    ensures var all := next + [Projection(id, false, items, false)]; ForestOf(all) && WellScoped(all)
  {
    Grow(next, Some(id), Projection(id, false, items, false));
    PushScoped(next, Projection(id, false, items, false));
  }

  lemma FirstBranch(nodes: seq<LogicalOp>, bs: seq<CallBranch>, heads: seq<VarId>)
    requires bs != []
    ensures var (next, id) := PlanClauses(nodes, None, bs[0].body);
      PlanBranches(nodes, bs, heads).0
      == PlanBranches(next + [Projection(id, false, BranchColumns(bs[0], heads), false)], bs[1..], heads).0
  {}

  lemma {:induction false} BranchesTidy(
    nodes: seq<LogicalOp>, bs: seq<CallBranch>, heads: seq<VarId>, scope: set<VarId>)
    requires ForestOf(nodes) && WellScoped(nodes) && BranchesScoped(bs, scope)
    ensures ForestOf(PlanBranches(nodes, bs, heads).0) && WellScoped(PlanBranches(nodes, bs, heads).0)
    decreases bs, 2
  {
    if bs != [] {
      FirstBranch(nodes, bs, heads);
      var (next, id) := PlanClauses(nodes, None, bs[0].body);
      ClausesGrow(nodes, None, bs[0].body);
      ClausesTidy(nodes, None, bs[0].body, scope);
      BranchTopTidy(nodes, next, id, BranchColumns(bs[0], heads));
      BranchesTidy(next + [Projection(id, false, BranchColumns(bs[0], heads), false)], bs[1..], heads, scope);
    }
  }

  /** Well-scoped clauses are planned to an arena the passes may start from. */
  lemma QueryScoped(cs: seq<QueryClause>)
    requires AllScoped(cs, {})
    ensures var (nodes, root) := PlanClauses([], None, cs);
      PlanOk(root, nodes, Below(|nodes|)) && WellScoped(nodes)
  {
    var (nodes, root) := PlanClauses([], None, cs);
    ClausesGrow([], None, cs);
    FinishedPlan(nodes, root);
    ClausesTidy([], None, cs, {});
  }
}
