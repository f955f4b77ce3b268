/** MATCH patterns, the rows they match before any WHERE, and planning them:
    each WHERE conjunct goes into a filter right above the operator that binds
    the last pattern variable it needs. */
module Planning {
  import opened Values
  import opened Expressions
  import opened Conjuncts
  import opened Logical
  import opened Arena

  datatype NodePattern = NodePattern(v: VarId, labels: Labels, props: Option<Expr>)
  datatype RelPattern = RelPattern(
    v: Option<VarId>, types: seq<string>, direction: Direction, props: Option<Expr>)
  datatype ChainStep = ChainStep(rel: RelPattern, node: NodePattern)
  datatype Chain = Chain(head: NodePattern, steps: seq<ChainStep>)

  /** One comma-separated part, with its path variable if it has one. A lone
      node is a chain without steps. */
  /** `fromTail` is the cost model's verdict on the part, whatever its reason. */
  datatype Part = Part(binding: Option<VarId>, chain: Chain, fromTail: bool)

  // ----- walking a chain backwards -----

  function Flip(d: Direction): Direction {
    match d
    case Left => Right
    case Right => Left
    case Undirected => Undirected
  }

  /** The chain's nodes, the head being node 0. */
  function NodeAt(c: Chain, i: nat): NodePattern
    requires i <= |c.steps|
  {
    if i == 0 then c.head else c.steps[i - 1].node
  }

  /** Step `i` of the reversed chain: relationship `k - i`, turned round, to
      the node before it. */
  function ReversedStep(c: Chain, i: nat): ChainStep
    requires i < |c.steps|
  {
    var j := |c.steps| - 1 - i;
    var rel := c.steps[j].rel;
    ChainStep(rel.(direction := Flip(rel.direction)), NodeAt(c, j))
  }

  function ReversedSteps(c: Chain, n: nat): (rs: seq<ChainStep>)
    requires n <= |c.steps|
    ensures |rs| == n && forall i | 0 <= i < n :: rs[i] == ReversedStep(c, i)
  {
    if n == 0 then [] else ReversedSteps(c, n - 1) + [ReversedStep(c, n - 1)]
  }

  /** `(n0)-[r1]->(n1)-[r2]-(n2)` as `(n2)-[r2]-(n1)<-[r1]-(n0)`. */
  function ReverseChain(c: Chain): (r: Chain)
    ensures |r.steps| == |c.steps|
  {
    Chain(NodeAt(c, |c.steps|), ReversedSteps(c, |c.steps|))
  }

  lemma ReversedNode(c: Chain, i: nat)
    requires i <= |c.steps|
    ensures NodeAt(ReverseChain(c), i) == NodeAt(c, |c.steps| - i)
  {}

  /** Reversing is its own inverse. */
  lemma ReverseTwice(c: Chain)
    ensures ReverseChain(ReverseChain(c)) == c
  {
    var k, r := |c.steps|, ReverseChain(c);
    ReversedNode(c, k);
    forall i | 0 <= i < k ensures ReverseChain(r).steps[i] == c.steps[i] {
      ReversedNode(c, k - 1 - i);
      assert r.steps[k - 1 - i] == ReversedStep(c, k - 1 - i);
    }
    assert ReverseChain(r).steps == c.steps;
  }

  // ----- variables -----

  function OptionSet<T>(o: Option<T>): set<T> {
    match o case None => {} case Some(v) => {v}
  }

  function StepVars(s: ChainStep): set<VarId> { OptionSet(s.rel.v) + {s.node.v} }

  function StepsVars(steps: seq<ChainStep>): set<VarId> {
    if steps == [] then {} else StepVars(steps[0]) + StepsVars(steps[1..])
  }

  function ChainVars(c: Chain): set<VarId> { {c.head.v} + StepsVars(c.steps) }

  lemma {:induction false} StepsVarsMember(steps: seq<ChainStep>, v: VarId)
    ensures v in StepsVars(steps) <==> exists i :: 0 <= i < |steps| && v in StepVars(steps[i])
  {
    if steps != [] {
      StepsVarsMember(steps[1..], v);
      if v in StepsVars(steps[1..]) {
        var i :| 0 <= i < |steps[1..]| && v in StepVars(steps[1..][i]);
        assert v in StepVars(steps[i + 1]);
      }
      if i :| 0 < i < |steps| && v in StepVars(steps[i]) {
        assert v in StepVars(steps[1..][i - 1]);
      }
    }
  }

  /** Reversing a chain keeps its variables. */
  lemma ReverseVars(c: Chain)
    ensures ChainVars(ReverseChain(c)) == ChainVars(c)
  {
    ReverseVarsWithin(c);
    ReverseVarsWithin(ReverseChain(c));
    ReverseTwice(c);
  }

  lemma ReverseVarsWithin(c: Chain)
    ensures ChainVars(ReverseChain(c)) <= ChainVars(c)
  {
    var r, k := ReverseChain(c), |c.steps|;
    forall v | v in ChainVars(r) ensures v in ChainVars(c) {
      StepsVarsMember(r.steps, v);
      if v == r.head.v {
        ChainHasNode(c, k);
      } else {
        var i :| 0 <= i < |r.steps| && v in StepVars(r.steps[i]);
        assert r.steps[i] == ReversedStep(c, i);
        ChainHasNode(c, k - 1 - i);
        StepsVarsMember(c.steps, v);
        if v != NodeAt(c, k - 1 - i).v { assert v in StepVars(c.steps[k - 1 - i]); }
      }
    }
  }

  lemma ChainHasNode(c: Chain, i: nat)
    requires i <= |c.steps|
    ensures NodeAt(c, i).v in ChainVars(c)
  {
    if i > 0 {
      assert NodeAt(c, i).v in StepVars(c.steps[i - 1]);
      StepsVarsMember(c.steps, NodeAt(c, i).v);
    }
  }

  /** The variables a pattern binds. */
  function PatternVars(parts: seq<Part>): set<VarId> {
    if parts == [] then {}
    else OptionSet(parts[0].binding) + ChainVars(parts[0].chain) + PatternVars(parts[1..])
  }

  /** No path variable is bound by anything before its PathBuild. */
  predicate PathsFresh(parts: seq<Part>, seen: set<VarId>)
    decreases |parts|
  {
    parts == [] ||
    (var p := parts[0];
     var seen' := seen + ChainVars(p.chain);
     OptionSet(p.binding) !! seen' && PathsFresh(parts[1..], seen' + OptionSet(p.binding)))
  }

  // ----- inline checks -----

  function HasLabel(v: VarId, name: string): Expr {
    Call(HAS_LABEL, false, false, [Variable(v), Literal(Text(name))])
  }

  /** `has_label(v, a) OR has_label(v, b) ...`, left to right. */
  function GroupCheck(v: VarId, group: seq<string>): Expr
    requires group != []
  {
    var last := HasLabel(v, group[|group| - 1]);
    if |group| == 1 then last else Binary(GroupCheck(v, group[..|group| - 1]), Or, last)
  }

  function GroupChecks(v: VarId, labels: Labels): seq<Expr> {
    if labels == [] then []
    else (if labels[0] == [] then [] else [GroupCheck(v, labels[0])]) + GroupChecks(v, labels[1..])
  }

  /** The label test of a node an expansion reaches; empty groups vanish. */
  function LabelCheck(v: VarId, labels: Labels): seq<Expr> {
    var checks := AndAll(GroupChecks(v, labels));
    match checks case None => [] case Some(e) => [e]
  }

  function EntryChecks(v: VarId, entries: seq<Entry>): seq<Expr> {
    if entries == [] then []
    else
      var check := Binary(Property(Variable(v), entries[0].key), Eq, entries[0].value);
      [check] + EntryChecks(v, entries[1..])
  }

  /** `v.k = value AND ...` for an inline property map. */
  function PropertyCheck(v: VarId, props: Option<Expr>): seq<Expr> {
    if props.Some? && props.value.MapOf? then
      match AndAll(EntryChecks(v, props.value.entries)) case None => [] case Some(e) => [e]
    else []
  }

  function NodeChecks(n: NodePattern): seq<Expr> { PropertyCheck(n.v, n.props) }

  function StepChecks(s: ChainStep): seq<Expr> {
    LabelCheck(s.node.v, s.node.labels) + PropertyCheck(s.node.v, s.node.props)
  }

  // ----- the rows a pattern matches -----

  /** The rows on which every one of `es` is true. */
  function Keep(es: seq<Expr>, rows: seq<Row>, env: Env): seq<Row> {
    if rows == [] then []
    else
      var rest := Keep(es, rows[1..], env);
      if AllTrue(es, rows[0], env) then [rows[0]] + rest else rest
  }

  function ScanOf(n: NodePattern): LogicalOp { NodeScan(None, n.v, n.labels) }

  function ExpandOf(src: VarId, s: ChainStep): LogicalOp {
    Expand(0, src, s.rel.v, s.node.v, s.rel.types, s.rel.direction, s.rel.props)
  }

  function PathOf(p: Part): LogicalOp
    requires p.binding.Some?
  {
    PathBuild(0, p.binding.value, NodeVarsOf(p.chain), RelVarsOf(p.chain.steps))
  }

  function NodeVarsOf(c: Chain): seq<VarId> { [c.head.v] + StepNodeVars(c.steps) }

  function StepNodeVars(steps: seq<ChainStep>): seq<VarId> {
    if steps == [] then [] else [steps[0].node.v] + StepNodeVars(steps[1..])
  }

  function RelVarsOf(steps: seq<ChainStep>): seq<VarId> {
    if steps == [] then []
    else (match steps[0].rel.v case None => [] case Some(v) => [v]) + RelVarsOf(steps[1..])
  }

  function MatchNode(n: NodePattern, rows: seq<Row>, x: Exec): seq<Row> {
    Keep(NodeChecks(n), StepAll(ScanOf(n), rows, x), x.env)
  }

  function MatchSteps(src: VarId, steps: seq<ChainStep>, rows: seq<Row>, x: Exec): seq<Row>
    decreases |steps|
  {
    if steps == [] then rows
    else
      var next := Keep(StepChecks(steps[0]), StepAll(ExpandOf(src, steps[0]), rows, x), x.env);
      MatchSteps(steps[0].node.v, steps[1..], next, x)
  }

  function MatchChain(c: Chain, rows: seq<Row>, x: Exec): seq<Row> {
    MatchSteps(c.head.v, c.steps, MatchNode(c.head, rows, x), x)
  }

  /** Only a chain without a path binding may be walked from its tail. */
  predicate Reversible(p: Part) { p.binding.None? && p.chain.steps != [] }

  function Walked(p: Part): Chain {
    if Reversible(p) && p.fromTail then ReverseChain(p.chain) else p.chain
  }

  function MatchPart(p: Part, rows: seq<Row>, x: Exec): seq<Row> {
    var matched := MatchChain(Walked(p), rows, x);
    if p.binding.Some? then StepAll(PathOf(p), matched, x) else matched
  }

  function MatchPattern(parts: seq<Part>, rows: seq<Row>, x: Exec): seq<Row>
    decreases |parts|
  {
    if parts == [] then rows
    else MatchPattern(parts[1..], MatchPart(parts[0], rows, x), x)
  }

  // ----- laws of Keep -----

  lemma {:induction false} KeepElements(es: seq<Expr>, rows: seq<Row>, env: Env)
    ensures forall r :: r in Keep(es, rows, env) <==> r in rows && AllTrue(es, r, env)
  {
    if rows != [] { KeepElements(es, rows[1..], env); }
  }

  lemma {:induction false} KeepConcat(es: seq<Expr>, a: seq<Row>, b: seq<Row>, env: Env)
    ensures Keep(es, a + b, env) == Keep(es, a, env) + Keep(es, b, env)
  {
    if a == [] {
      assert a + b == b;
    } else {
      assert (a + b)[1..] == a[1..] + b;
      KeepConcat(es, a[1..], b, env);
    }
  }

  lemma {:induction false} KeepTwice(a: seq<Expr>, b: seq<Expr>, rows: seq<Row>, env: Env)
    ensures Keep(a, Keep(b, rows, env), env) == Keep(a + b, rows, env)
  {
    if rows != [] {
      KeepTwice(a, b, rows[1..], env);
      assert forall e :: e in a + b <==> e in a || e in b;
      if AllTrue(b, rows[0], env) {
        var rest := Keep(b, rows[1..], env);
        assert ([rows[0]] + rest)[1..] == rest;
      }
    }
  }

  lemma {:induction false} KeepSame(a: seq<Expr>, b: seq<Expr>, rows: seq<Row>, env: Env)
    requires forall r | r in rows :: AllTrue(a, r, env) == AllTrue(b, r, env)
    ensures Keep(a, rows, env) == Keep(b, rows, env)
  {
    if rows != [] { KeepSame(a, b, rows[1..], env); }
  }

  lemma {:induction false} KeepAll(es: seq<Expr>, rows: seq<Row>, env: Env)
    requires forall r | r in rows :: AllTrue(es, r, env)
    ensures Keep(es, rows, env) == rows
  {
    if rows != [] { KeepAll(es, rows[1..], env); }
  }

  lemma {:induction false} FilterKeeps(input: nat, pred: Expr, rows: seq<Row>, x: Exec)
    ensures StepAll(Filter(input, pred), rows, x) == Keep([pred], rows, x.env)
  {
    if rows != [] {
      FilterKeeps(input, pred, rows[1..], x);
      assert AllTrue([pred], rows[0], x.env) <==> Eval(pred, rows[0], x.env).Truthy();
    }
  }

  lemma {:induction false} KeepNone(es: seq<Expr>, rows: seq<Row>, env: Env)
    requires forall r | r in rows :: !AllTrue(es, r, env)
    ensures Keep(es, rows, env) == []
  {
    if rows != [] { KeepNone(es, rows[1..], env); }
  }

  /** A filter moves below an operator that leaves its tests unchanged. */
  lemma {:induction false} KeepBelow(op: LogicalOp, es: seq<Expr>, rows: seq<Row>, x: Exec)
    requires RowWise(op)
    requires forall r, s | r in rows && s in Step(op, r, x) ::
      AllTrue(es, r, x.env) == AllTrue(es, s, x.env)
    ensures StepAll(op, Keep(es, rows, x.env), x) == Keep(es, StepAll(op, rows, x), x.env)
  {
    if rows != [] {
      var first := Step(op, rows[0], x);
      KeepBelow(op, es, rows[1..], x);
      KeepConcat(es, first, StepAll(op, rows[1..], x), x.env);
      var rest := Keep(es, rows[1..], x.env);
      if AllTrue(es, rows[0], x.env) {
        KeepAll(es, first, x.env);
        assert ([rows[0]] + rest)[1..] == rest;
      } else {
        KeepNone(es, first, x.env);
      }
    }
  }

  // ====================
  // Planning a MATCH: each WHERE conjunct goes into a filter right above the operator
  // that binds the last pattern variable it needs.

  /** A conjunct waiting for the pattern variables in `needs`. */
  datatype Pending = Pending(order: nat, expr: Expr, needs: set<VarId>)

  /** The planner between two operators. `placed` lists the conjuncts already
      in a filter; the planner itself does not keep it. */
  datatype State = State(
    nodes: seq<LogicalOp>, pending: seq<Pending>, available: set<VarId>, placed: seq<Pending>)

  datatype Planned = Planned(st: State, node: nat)

  function Exprs(ps: seq<Pending>): seq<Expr> {
    seq(|ps|, i requires 0 <= i < |ps| => ps[i].expr)
  }

  function Ready(ps: seq<Pending>, available: set<VarId>): seq<Pending> {
    if ps == [] then []
    else
      var rest := Ready(ps[1..], available);
      if ps[0].needs <= available then [ps[0]] + rest else rest
  }

  function Waiting(ps: seq<Pending>, available: set<VarId>): seq<Pending> {
    if ps == [] then []
    else
      var rest := Waiting(ps[1..], available);
      if ps[0].needs <= available then rest else [ps[0]] + rest
  }

  // ----- the planner, step by step -----

  /** Push an operator and make the variables it binds available. */
  function Bind(st: State, op: LogicalOp, binds: set<VarId>): Planned {
    Planned(st.(nodes := st.nodes + [op], available := st.available + binds), |st.nodes|)
  }

  /** `checks` and every conjunct that is ready, in one filter above `input`. */
  function AttachReady(p: Planned, checks: seq<Expr>): Planned {
    var ready := Ready(p.st.pending, p.st.available);
    var st := p.st.(pending := Waiting(p.st.pending, p.st.available), placed := p.st.placed + ready);
    match AndAll(checks + Exprs(ready))
    case None => Planned(st, p.node)
    case Some(pred) => Planned(st.(nodes := st.nodes + [Filter(p.node, pred)]), |st.nodes|)
  }

  function PlanNode(st: State, input: Option<nat>, n: NodePattern): Planned {
    AttachReady(Bind(st, NodeScan(input, n.v, n.labels), {n.v}), NodeChecks(n))
  }

  function PlanStep(p: Planned, src: VarId, s: ChainStep): Planned {
    var expand := Expand(p.node, src, s.rel.v, s.node.v, s.rel.types, s.rel.direction, s.rel.props);
    AttachReady(Bind(p.st, expand, StepVars(s)), StepChecks(s))
  }

  function PlanSteps(p: Planned, src: VarId, steps: seq<ChainStep>): Planned
    decreases |steps|
  {
    if steps == [] then p
    else PlanSteps(PlanStep(p, src, steps[0]), steps[0].node.v, steps[1..])
  }

  function PlanChain(st: State, input: Option<nat>, c: Chain): Planned {
    PlanSteps(PlanNode(st, input, c.head), c.head.v, c.steps)
  }

  function PlanPart(st: State, input: Option<nat>, part: Part): Planned {
    var p := PlanChain(st, input, Walked(part));
    if part.binding.None? then p
    else
      var build := PathBuild(p.node, part.binding.value, NodeVarsOf(part.chain), RelVarsOf(part.chain.steps));
      AttachReady(Bind(p.st, build, {part.binding.value}), [])
  }

  function PlanParts(p: Planned, parts: seq<Part>): Planned
    decreases |parts|
  {
    if parts == [] then p
    else PlanParts(PlanPart(p.st, Some(p.node), parts[0]), parts[1..])
  }

  /** The parts in turn; an empty pattern is its input, or a unit row. */
  function PlanPattern(st: State, input: Option<nat>, parts: seq<Part>): Planned
  {
    if parts == [] then
      (match input case Some(id) => Planned(st, id) case None => Bind(st, Argument, {}))
    else PlanParts(PlanPart(st, input, parts[0]), parts[1..])
  }

  // ----- splitting the WHERE -----

  function Needs(c: Expr, patternVars: set<VarId>): set<VarId> {
    match ConjunctVars(c) case None => {} case Some(vars) => vars * patternVars
  }

  /** Conjunct `from + i` waits when it needs a pattern variable. */
  function ToPlace(cs: seq<Expr>, from: nat, patternVars: set<VarId>): seq<Pending>
    decreases |cs|
  {
    if cs == [] then []
    else
      var rest := ToPlace(cs[1..], from + 1, patternVars);
      var needs := Needs(cs[0], patternVars);
      if needs == {} then rest else [Pending(from, cs[0], needs)] + rest
  }

  /** The others stay above the pattern. */
  function ToKeep(cs: seq<Expr>, from: nat, patternVars: set<VarId>): seq<(nat, Expr)>
    decreases |cs|
  {
    if cs == [] then []
    else
      var rest := ToKeep(cs[1..], from + 1, patternVars);
      if Needs(cs[0], patternVars) == {} then [(from, cs[0])] + rest else rest
  }

  function InsertByOrder(e: (nat, Expr), es: seq<(nat, Expr)>): seq<(nat, Expr)> {
    if es == [] || e.0 <= es[0].0 then [e] + es else [es[0]] + InsertByOrder(e, es[1..])
  }

  function SortByOrder(es: seq<(nat, Expr)>): seq<(nat, Expr)> {
    if es == [] then [] else InsertByOrder(es[0], SortByOrder(es[1..]))
  }

  function Numbered(ps: seq<Pending>): seq<(nat, Expr)> {
    seq(|ps|, i requires 0 <= i < |ps| => (ps[i].order, ps[i].expr))
  }

  function Unnumbered(es: seq<(nat, Expr)>): seq<Expr> {
    seq(|es|, i requires 0 <= i < |es| => es[i].1)
  }

  /** The plan of `MATCH parts WHERE where`, and the conjuncts, in WHERE
      order, for the caller to apply above it. */
  datatype MatchPlan = MatchPlan(planned: Planned, residual: seq<Expr>)

  function Initial(nodes: seq<LogicalOp>, pending: seq<Pending>): State {
    State(nodes, pending, {}, [])
  }

  function ConjunctsOfWhere(where: Option<Expr>): seq<Expr> {
    match where case None => [] case Some(w) => ConjunctsOf(w)
  }

  function PlanWithWhere(
    nodes: seq<LogicalOp>, input: Option<nat>, parts: seq<Part>, where: Option<Expr>)
    : MatchPlan
  {
    var cs, vars := ConjunctsOfWhere(where), PatternVars(parts);
    var p := PlanPattern(Initial(nodes, ToPlace(cs, 0, vars)), input, parts);
    MatchPlan(p, Unnumbered(SortByOrder(ToKeep(cs, 0, vars) + Numbered(p.st.pending))))
  }

  /** A non-optional MATCH: the residual conjuncts in one filter on top. */
  function PlanMatch(
    nodes: seq<LogicalOp>, input: Option<nat>, parts: seq<Part>, where: Option<Expr>)
    : Planned
  {
    var m := PlanWithWhere(nodes, input, parts, where);
    var st := m.planned.st;
    match AndAll(m.residual)
    case None => m.planned
    case Some(pred) => Planned(st.(nodes := st.nodes + [Filter(m.planned.node, pred)]), |st.nodes|)
  }

  /** The filter on top. */
  function WithResidual(p: Planned, residual: seq<Expr>): Planned {
    match AndAll(residual)
    case None => p
    case Some(pred) => Planned(p.st.(nodes := p.st.nodes + [Filter(p.node, pred)]), |p.st.nodes|)
  }

  lemma SameResidual(
    nodes: seq<LogicalOp>, input: Option<nat>, parts: seq<Part>, where: Option<Expr>)
    ensures var m := PlanWithWhere(nodes, input, parts, where);
      PlanMatch(nodes, input, parts, where) == WithResidual(m.planned, m.residual)
  {}
}
