/** Placing WHERE conjuncts early keeps the rows of the pattern. */
module Placement {
  import opened Values
  import opened Expressions
  import opened Conjuncts
  import opened Logical
  import opened Arena
  import opened Planning

  // ----- conjunct lists -----

  lemma AllTrueConcat(a: seq<Expr>, b: seq<Expr>, row: Row, env: Env)
    ensures AllTrue(a + b, row, env) <==> AllTrue(a, row, env) && AllTrue(b, row, env)
  {
    assert forall e :: e in a + b <==> e in a || e in b;
  }

  lemma ExprsConcat(a: seq<Pending>, b: seq<Pending>)
    ensures Exprs(a + b) == Exprs(a) + Exprs(b)
  {}

  /** Ready and waiting conjuncts are the pending ones, each once. */
  lemma {:induction false} Partition(ps: seq<Pending>, available: set<VarId>)
    ensures multiset(Ready(ps, available)) + multiset(Waiting(ps, available)) == multiset(ps)
    ensures forall p :: p in Ready(ps, available) <==> p in ps && p.needs <= available
    ensures forall p :: p in Waiting(ps, available) <==> p in ps && !(p.needs <= available)
  {
    if ps != [] {
      assert ps == [ps[0]] + ps[1..];
      Partition(ps[1..], available);
    }
  }

  // ----- what the planner keeps -----

  /** The variables an operator of a pattern plan binds. */
  function Binds(op: LogicalOp): set<VarId>
    requires op.NodeScan? || op.Expand? || op.PathBuild?
  {
    match op
    case NodeScan(_, v, _) => {v}
    case Expand(_, _, rel, dst, _, _, _) => OptionSet(rel) + {dst}
    case PathBuild(_, output, _, _) => {output}
  }

  /** Conjuncts read pattern variables only where they say so, placed ones
      only available variables, and none that is ready still waits. */
  ghost predicate Scoped(st: State, patternVars: set<VarId>) {
    && (forall p | p in st.placed :: Free(p.expr) * patternVars <= p.needs && p.needs <= st.available)
    && (forall p | p in st.pending :: Free(p.expr) * patternVars <= p.needs)
  }

  ghost predicate Settled(st: State) {
    forall p | p in st.pending :: !(p.needs <= st.available)
  }

  /** The rows at `input` are the reference rows that satisfy the conjuncts
      placed so far, and they bind everything available. */
  ghost predicate Sound(st: State, input: Option<nat>, x: Exec, arg: Row, rows: seq<Row>) {
    && Topological(st.nodes)
    && (input.Some? ==> input.value < |st.nodes|)
    && InputRows(st.nodes, input, x, arg) == Keep(Exprs(st.placed), rows, x.env)
    && (forall r | r in rows :: st.available <= r.Keys)
  }

  // ----- one operator -----

  /** Pattern operators extend a row: what it binds stays, except that
      PathBuild overwrites its output. */
  ghost predicate Extends(r: Row, s: Row, binds: set<VarId>, over: set<VarId>) {
    s.Keys == r.Keys + binds && forall v | v in r && v !in over :: s[v] == r[v]
  }

  lemma {:induction false} ScanExtends(op: LogicalOp, ids: seq<nat>, r: Row, s: Row, env: Env)
    requires op.NodeScan? && s in ScanRows(op, ids, r, env)
    requires op.v !in r
    ensures Extends(r, s, {op.v}, {})
  {
    if !(NodeFound(op, ids[0], r, env) && s == r[op.v := NodeRef(ids[0])]) {
      ScanExtends(op, ids[1..], r, s, env);
    }
  }

  lemma {:induction false} ExpandExtends(op: LogicalOp, edges: seq<(nat, nat)>, r: Row, s: Row, env: Env)
    requires op.Expand? && s in ExpandRows(op, edges, r, env)
    ensures Extends(r, s, Binds(op), {})
  {
    if s !in ExpandRow(op, edges[0].0, edges[0].1, r, env) {
      ExpandExtends(op, edges[1..], r, s, env);
    }
  }

  lemma StepExtends(op: LogicalOp, r: Row, s: Row, x: Exec)
    requires op.NodeScan? || op.Expand? || op.PathBuild?
    requires s in Step(op, r, x)
    ensures Extends(r, s, Binds(op), if op.PathBuild? then Binds(op) else {})
  {
    match op
    case NodeScan(_, v, _) =>
      if v !in r { ScanExtends(op, x.nodeOrder(Detached(op)), r, s, x.env); }
    case Expand(_, src, _, _, types, dir, _) =>
      ExpandExtends(op, ExpandFrom(x.env.graph, r[src].node, dir, types), r, s, x.env);
    case PathBuild(_, _, _, _) =>
  }

  lemma {:induction false} StepAllExtends(op: LogicalOp, rows: seq<Row>, s: Row, x: Exec)
    returns (r: Row)
    requires op.NodeScan? || op.Expand? || op.PathBuild?
    requires s in StepAll(op, rows, x)
    ensures r in rows && s in Step(op, r, x)
  {
    if s in Step(op, rows[0], x) {
      r := rows[0];
    } else {
      r := StepAllExtends(op, rows[1..], s, x);
    }
  }

  /** A placed conjunct has the same value below and above a later operator. */
  lemma PlacedUnchanged(st: State, pv: set<VarId>, op: LogicalOp, r: Row, s: Row, x: Exec)
    requires Scoped(st, pv)
    requires op.NodeScan? || op.Expand? || op.PathBuild?
    requires Binds(op) <= pv && st.available <= r.Keys
    requires op.PathBuild? ==> op.output !in st.available
    requires s in Step(op, r, x)
    ensures AllTrue(Exprs(st.placed), r, x.env) == AllTrue(Exprs(st.placed), s, x.env)
  {
    StepExtends(op, r, s, x);
    forall e | e in Exprs(st.placed) ensures Eval(e, r, x.env) == Eval(e, s, x.env) {
      var i :| 0 <= i < |st.placed| && e == st.placed[i].expr;
      assert st.placed[i] in st.placed;
      assert SameOn(r, s, Free(e));
      Coincidence(e, r, s, x.env);
    }
  }

  /** Pushing a pattern operator keeps the planner sound. */
  lemma BindSound(
    st: State, input: Option<nat>, op: LogicalOp, pv: set<VarId>, x: Exec, arg: Row, rows: seq<Row>)
    requires Sound(st, input, x, arg, rows) && Scoped(st, pv)
    requires op.NodeScan? || op.Expand? || op.PathBuild?
    requires Upstream(op) == input
    requires Binds(op) <= pv
    requires op.PathBuild? ==> op.output !in st.available
    ensures var b := Bind(st, op, Binds(op));
      Sound(b.st, Some(b.node), x, arg, StepAll(Detached(op), rows, x)) && Scoped(b.st, pv)
  {
    DenotePush(st.nodes, op, x, arg);
    forall r, s | r in rows && s in Step(op, r, x)
      ensures AllTrue(Exprs(st.placed), r, x.env) == AllTrue(Exprs(st.placed), s, x.env)
    {
      PlacedUnchanged(st, pv, op, r, s, x);
    }
    KeepBelow(op, Exprs(st.placed), rows, x);
    StepAllDetached(op, rows, x);
    forall s | s in StepAll(op, rows, x) ensures st.available + Binds(op) <= s.Keys {
      var r := StepAllExtends(op, rows, s, x);
      StepExtends(op, r, s, x);
    }
  }

  lemma {:induction false} FilterIsKeep(input: nat, es: seq<Expr>, rows: seq<Row>, x: Exec)
    requires es != []
    ensures AndAll(es).Some?
    ensures StepAll(Filter(input, AndAll(es).value), rows, x) == Keep(es, rows, x.env)
  {
    AndAllDecides(es, map[], x.env);
    if rows != [] {
      AndAllDecides(es, rows[0], x.env);
      FilterIsKeep(input, es, rows[1..], x);
    }
  }

  /** A filter of checks and ready conjuncts keeps the planner sound, and no
      ready conjunct is left waiting. */
  lemma AttachSound(p: Planned, checks: seq<Expr>, pv: set<VarId>, x: Exec, arg: Row, rows: seq<Row>)
    requires Sound(p.st, Some(p.node), x, arg, rows) && Scoped(p.st, pv)
    ensures var a := AttachReady(p, checks);
      Sound(a.st, Some(a.node), x, arg, Keep(checks, rows, x.env))
      && Scoped(a.st, pv) && Settled(a.st)
  {
    var st := p.st;
    var ready := Ready(st.pending, st.available);
    Partition(st.pending, st.available);
    var all, placed := checks + Exprs(ready), Exprs(st.placed);
    AndAllDecides(all, map[], x.env);
    ExprsConcat(st.placed, ready);
    KeepElements(checks, rows, x.env);
    if all == [] {
      assert checks == [] && ready == [];
      KeepAll([], rows, x.env);
      assert st.placed + ready == st.placed;
    } else {
      DenotePush(st.nodes, Filter(p.node, AndAll(all).value), x, arg);
      FilterIsKeep(p.node, all, Keep(placed, rows, x.env), x);
      KeepMore(checks, Exprs(ready), placed, rows, x.env);
    }
  }

  /** The checks and the conjuncts that are ready, on rows that pass the
      placed ones, or all in turn. */
  lemma KeepMore(checks: seq<Expr>, ready: seq<Expr>, placed: seq<Expr>, rows: seq<Row>, env: Env)
    ensures Keep(checks + ready, Keep(placed, rows, env), env) == Keep(placed + ready, Keep(checks, rows, env), env)
  {
    KeepTwice(checks + ready, placed, rows, env);
    KeepTwice(placed + ready, checks, rows, env);
    forall r ensures AllTrue(checks + ready + placed, r, env) == AllTrue(placed + ready + checks, r, env) {
      AllTrueConcat(checks + ready, placed, r, env);
      AllTrueConcat(checks, ready, r, env);
      AllTrueConcat(placed + ready, checks, r, env);
      AllTrueConcat(placed, ready, r, env);
    }
    KeepSame(checks + ready + placed, placed + ready + checks, rows, env);
  }

  // ----- chains and parts -----

  lemma NodeSound(
    st: State, input: Option<nat>, n: NodePattern, pv: set<VarId>, x: Exec, arg: Row, rows: seq<Row>)
    requires Sound(st, input, x, arg, rows) && Scoped(st, pv) && n.v in pv
    ensures var p := PlanNode(st, input, n);
      Sound(p.st, Some(p.node), x, arg, MatchNode(n, rows, x)) && Scoped(p.st, pv) && Settled(p.st)
  {
    var scan := NodeScan(input, n.v, n.labels);
    BindSound(st, input, scan, pv, x, arg, rows);
    AttachSound(Bind(st, scan, {n.v}), NodeChecks(n), pv, x, arg, StepAll(ScanOf(n), rows, x));
  }

  lemma {:induction false} StepsSound(
    p: Planned, src: VarId, steps: seq<ChainStep>, pv: set<VarId>, x: Exec, arg: Row, rows: seq<Row>)
    requires Sound(p.st, Some(p.node), x, arg, rows) && Scoped(p.st, pv) && Settled(p.st)
    requires StepsVars(steps) <= pv
    ensures var q := PlanSteps(p, src, steps);
      Sound(q.st, Some(q.node), x, arg, MatchSteps(src, steps, rows, x))
      && Scoped(q.st, pv) && Settled(q.st)
    decreases |steps|
  {
    if steps == [] { return; }
    var s := steps[0];
    var expand := Expand(p.node, src, s.rel.v, s.node.v, s.rel.types, s.rel.direction, s.rel.props);
    BindSound(p.st, Some(p.node), expand, pv, x, arg, rows);
    var stepped := StepAll(ExpandOf(src, s), rows, x);
    assert Bind(p.st, expand, StepVars(s)) == Bind(p.st, expand, Binds(expand));
    AttachSound(Bind(p.st, expand, StepVars(s)), StepChecks(s), pv, x, arg, stepped);
    StepsSound(PlanStep(p, src, s), s.node.v, steps[1..], pv, x, arg,
               Keep(StepChecks(s), stepped, x.env));
  }

  // Which variables a plan has made available.

  lemma {:induction false} StepsAvailable(p: Planned, src: VarId, steps: seq<ChainStep>)
    ensures PlanSteps(p, src, steps).st.available == p.st.available + StepsVars(steps)
    decreases |steps|
  {
    if steps != [] { StepsAvailable(PlanStep(p, src, steps[0]), steps[0].node.v, steps[1..]); }
  }

  lemma ChainSound(
    st: State, input: Option<nat>, c: Chain, pv: set<VarId>, x: Exec, arg: Row, rows: seq<Row>)
    requires Sound(st, input, x, arg, rows) && Scoped(st, pv)
    requires ChainVars(c) <= pv
    ensures var p := PlanChain(st, input, c);
      Sound(p.st, Some(p.node), x, arg, MatchChain(c, rows, x))
      && Scoped(p.st, pv) && Settled(p.st)
      && p.st.available == st.available + ChainVars(c)
  {
    NodeSound(st, input, c.head, pv, x, arg, rows);
    var head := PlanNode(st, input, c.head);
    StepsSound(head, c.head.v, c.steps, pv, x, arg, MatchNode(c.head, rows, x));
    StepsAvailable(head, c.head.v, c.steps);
  }

  lemma PathSound(
    p: Planned, part: Part, pv: set<VarId>, x: Exec, arg: Row, rows: seq<Row>)
    requires Sound(p.st, Some(p.node), x, arg, rows) && Scoped(p.st, pv)
    requires part.binding.Some? && part.binding.value in pv && part.binding.value !in p.st.available
    ensures var build := PathBuild(
        p.node, part.binding.value, NodeVarsOf(part.chain), RelVarsOf(part.chain.steps));
      var q := AttachReady(Bind(p.st, build, {part.binding.value}), []);
      Sound(q.st, Some(q.node), x, arg, StepAll(PathOf(part), rows, x))
      && Scoped(q.st, pv) && Settled(q.st)
  {
    var build := PathBuild(
      p.node, part.binding.value, NodeVarsOf(part.chain), RelVarsOf(part.chain.steps));
    BindSound(p.st, Some(p.node), build, pv, x, arg, rows);
    var built := StepAll(PathOf(part), rows, x);
    AttachSound(Bind(p.st, build, {part.binding.value}), [], pv, x, arg, built);
    KeepAll([], built, x.env);
  }

  lemma PartSound(
    st: State, input: Option<nat>, part: Part, pv: set<VarId>,
    x: Exec, arg: Row, rows: seq<Row>)
    requires Sound(st, input, x, arg, rows) && Scoped(st, pv)
    requires ChainVars(part.chain) + OptionSet(part.binding) <= pv
    requires OptionSet(part.binding) !! st.available + ChainVars(part.chain)
    ensures var p := PlanPart(st, input, part);
      Sound(p.st, Some(p.node), x, arg, MatchPart(part, rows, x))
      && Scoped(p.st, pv) && Settled(p.st)
      && p.st.available == st.available + ChainVars(part.chain) + OptionSet(part.binding)
  {
    var c := Walked(part);
    WalkedVars(part);
    ChainSound(st, input, c, pv, x, arg, rows);
    if part.binding.Some? {
      PathSound(PlanChain(st, input, c), part, pv, x, arg, MatchChain(c, rows, x));
    }
  }

  lemma WalkedVars(part: Part)
    ensures ChainVars(Walked(part)) == ChainVars(part.chain)
  {
    ReverseVars(part.chain);
  }

  lemma {:induction false} PartsSound(
    p: Planned, parts: seq<Part>, pv: set<VarId>, x: Exec, arg: Row, rows: seq<Row>)
    requires Sound(p.st, Some(p.node), x, arg, rows) && Scoped(p.st, pv) && Settled(p.st)
    requires PatternVars(parts) <= pv && PathsFresh(parts, p.st.available)
    ensures var q := PlanParts(p, parts);
      Sound(q.st, Some(q.node), x, arg, MatchPattern(parts, rows, x))
      && Scoped(q.st, pv) && Settled(q.st)
      && q.st.available == p.st.available + PatternVars(parts)
    decreases |parts|
  {
    if parts != [] {
      PartSound(p.st, Some(p.node), parts[0], pv, x, arg, rows);
      var q := PlanPart(p.st, Some(p.node), parts[0]);
      PartsSound(q, parts[1..], pv, x, arg, MatchPart(parts[0], rows, x));
    }
  }

  // ----- every conjunct lands exactly once -----

  ghost function Carried(st: State): multiset<Pending> {
    multiset(st.placed) + multiset(st.pending)
  }

  lemma AttachConserves(p: Planned, checks: seq<Expr>)
    ensures Carried(AttachReady(p, checks).st) == Carried(p.st)
  {
    Partition(p.st.pending, p.st.available);
  }

  lemma {:induction false} StepsConserve(p: Planned, src: VarId, steps: seq<ChainStep>)
    ensures Carried(PlanSteps(p, src, steps).st) == Carried(p.st)
    decreases |steps|
  {
    if steps != [] {
      var s := steps[0];
      var expand := Expand(p.node, src, s.rel.v, s.node.v, s.rel.types, s.rel.direction, s.rel.props);
      AttachConserves(Bind(p.st, expand, StepVars(s)), StepChecks(s));
      StepsConserve(PlanStep(p, src, s), s.node.v, steps[1..]);
    }
  }

  lemma PartConserves(st: State, input: Option<nat>, part: Part)
    ensures Carried(PlanPart(st, input, part).st) == Carried(st)
  {
    var c := Walked(part);
    AttachConserves(Bind(st, NodeScan(input, c.head.v, c.head.labels), {c.head.v}), NodeChecks(c.head));
    StepsConserve(PlanNode(st, input, c.head), c.head.v, c.steps);
    if part.binding.Some? {
      var p := PlanChain(st, input, c);
      var build := PathBuild(
        p.node, part.binding.value, NodeVarsOf(part.chain), RelVarsOf(part.chain.steps));
      AttachConserves(Bind(p.st, build, {part.binding.value}), []);
    }
  }

  lemma {:induction false} PartsConserve(p: Planned, parts: seq<Part>)
    ensures Carried(PlanParts(p, parts).st) == Carried(p.st)
    decreases |parts|
  {
    if parts != [] {
      PartConserves(p.st, Some(p.node), parts[0]);
      PartsConserve(PlanPart(p.st, Some(p.node), parts[0]), parts[1..]);
    }
  }

  lemma PatternConserves(st: State, input: Option<nat>, parts: seq<Part>)
    ensures Carried(PlanPattern(st, input, parts).st) == Carried(st)
  {
    if parts != [] {
      PartConserves(st, input, parts[0]);
      PartsConserve(PlanPart(st, input, parts[0]), parts[1..]);
    }
  }

  /** The conjuncts a step places are those whose last pattern variable its
      operator binds: not placeable before it, none left placeable after. */
  lemma PlacedAtOnce(st: State, op: LogicalOp, binds: set<VarId>, checks: seq<Expr>)
    requires Settled(st)
    ensures var b := Bind(st, op, binds);
      var a := AttachReady(b, checks);
      && |st.placed| <= |a.st.placed| && a.st.placed[..|st.placed|] == st.placed
      && (forall i | |st.placed| <= i < |a.st.placed| ::
            var p := a.st.placed[i];
            p in st.pending && p.needs <= b.st.available && !(p.needs <= st.available))
      && (forall p | p in a.st.pending :: p in st.pending && !(p.needs <= b.st.available))
  {
    Partition(st.pending, st.available + binds);
  }

  // ----- splitting the WHERE -----

  lemma {:induction false} ToPlaceScoped(cs: seq<Expr>, from: nat, pv: set<VarId>)
    ensures forall p | p in ToPlace(cs, from, pv) ::
      Free(p.expr) * pv <= p.needs && p.needs != {} && p.needs <= pv
    decreases |cs|
  {
    if cs != [] {
      ToPlaceScoped(cs[1..], from + 1, pv);
      if ConjunctVars(cs[0]).Some? { ConjunctVarsCover(cs[0]); }
    }
  }

  /** Conjuncts to place and conjuncts to keep are the WHERE's, each once. */
  lemma {:induction false} SplitCovers(cs: seq<Expr>, from: nat, pv: set<VarId>)
    ensures multiset(Exprs(ToPlace(cs, from, pv))) + multiset(Unnumbered(ToKeep(cs, from, pv)))
         == multiset(cs)
    decreases |cs|
  {
    if cs != [] {
      assert cs == [cs[0]] + cs[1..];
      SplitCovers(cs[1..], from + 1, pv);
      var place, keep := ToPlace(cs[1..], from + 1, pv), ToKeep(cs[1..], from + 1, pv);
      var needs := Needs(cs[0], pv);
      assert Exprs([Pending(from, cs[0], needs)] + place) == [cs[0]] + Exprs(place);
      assert Unnumbered([(from, cs[0])] + keep) == [cs[0]] + Unnumbered(keep);
    }
  }

  ghost predicate InOrder(es: seq<(nat, Expr)>, from: nat) {
    (forall e | e in es :: from <= e.0) && forall i, j | 0 <= i < j < |es| :: es[i].0 < es[j].0
  }

  lemma {:induction false} ToKeepInOrder(cs: seq<Expr>, from: nat, pv: set<VarId>)
    ensures InOrder(ToKeep(cs, from, pv), from)
    decreases |cs|
  {
    if cs != [] { ToKeepInOrder(cs[1..], from + 1, pv); }
  }

  lemma {:induction false} SortInOrder(es: seq<(nat, Expr)>, from: nat)
    requires InOrder(es, from)
    ensures SortByOrder(es) == es
    decreases |es|
  {
    if es != [] { SortInOrder(es[1..], es[0].0); }
  }

  // ----- main results -----

  lemma PatternSound(
    nodes: seq<LogicalOp>, input: Option<nat>, parts: seq<Part>,
    pending: seq<Pending>, x: Exec, arg: Row)
    requires Topological(nodes) && (input.Some? ==> input.value < |nodes|)
    requires PathsFresh(parts, {})
    requires forall p | p in pending :: Free(p.expr) * PatternVars(parts) <= p.needs && p.needs != {}
    ensures var q := PlanPattern(Initial(nodes, pending), input, parts);
      Sound(q.st, Some(q.node), x, arg,
            MatchPattern(parts, InputRows(nodes, input, x, arg), x))
      && Settled(q.st) && q.st.available == PatternVars(parts)
  {
    var st, rows, pv := Initial(nodes, pending), InputRows(nodes, input, x, arg), PatternVars(parts);
    KeepAll([], rows, x.env);
    assert Exprs([]) == [];
    if parts != [] {
      PartSound(st, input, parts[0], pv, x, arg, rows);
      var p := PlanPart(st, input, parts[0]);
      PartsSound(p, parts[1..], pv, x, arg, MatchPart(parts[0], rows, x));
    } else if input.None? {
      assert Denote(nodes + [Argument], |nodes|, x, arg) == [arg];
    }
  }

  function WhereList(where: Option<Expr>): seq<Expr> {
    match where case None => [] case Some(w) => [w]
  }

  lemma {:induction false} ExprsPerm(a: seq<Pending>, b: seq<Pending>)
    requires Perm(a, b)
    ensures Perm(Exprs(a), Exprs(b))
  {
    if a == [] {
      PermLength(a, b);
    } else {
      var i := PermFind(a, b);
      ExprsPerm(a[1..], b[..i] + b[i + 1..]);
      assert Exprs(a) == [a[0].expr] + Exprs(a[1..]);
      assert Exprs(b) == Exprs(b[..i]) + ([b[i].expr] + Exprs(b[i + 1..]));
      assert Exprs(b[..i] + b[i + 1..]) == Exprs(b[..i]) + Exprs(b[i + 1..]);
    }
  }

  lemma AllPlaced(
    nodes: seq<LogicalOp>, input: Option<nat>, parts: seq<Part>,
    pending: seq<Pending>, x: Exec)
    requires Topological(nodes) && (input.Some? ==> input.value < |nodes|)
    requires PathsFresh(parts, {})
    requires forall p | p in pending ::
      Free(p.expr) * PatternVars(parts) <= p.needs && p.needs != {} && p.needs <= PatternVars(parts)
    ensures var st := PlanPattern(Initial(nodes, pending), input, parts).st;
      st.pending == [] && Perm(st.placed, pending)
  {
    PatternSound(nodes, input, parts, pending, x, map[]);
    PatternConserves(Initial(nodes, pending), input, parts);
    NothingWaits(PlanPattern(Initial(nodes, pending), input, parts).st, pending, PatternVars(parts));
  }

  lemma NothingWaits(st: State, pending: seq<Pending>, pv: set<VarId>)
    requires Settled(st) && st.available == pv
    requires Carried(st) == multiset(pending)
    requires forall p | p in pending :: p.needs <= pv
    ensures st.pending == [] && Perm(st.placed, pending)
  {
    assert forall i | 0 <= i < |st.pending| :: st.pending[i] in multiset(st.pending);
    forall p ensures p !in multiset(st.pending) {
      assert p in multiset(st.pending) ==> p in Carried(st);
      assert p in multiset(pending) ==> p in pending;
      assert p in multiset(st.pending) ==> p in st.pending;
    }
  }

  lemma ResidualIsKept(cs: seq<Expr>, pv: set<VarId>)
    ensures Unnumbered(SortByOrder(ToKeep(cs, 0, pv) + Numbered([]))) == Unnumbered(ToKeep(cs, 0, pv))
  {
    var keep := ToKeep(cs, 0, pv);
    assert keep + Numbered([]) == keep;
    ToKeepInOrder(cs, 0, pv);
    SortInOrder(keep, 0);
  }

  /** Every conjunct of the WHERE lands exactly once: in a filter inside the
      pattern when it needs a pattern variable, else above it, in order. */
  lemma EachConjunctOnce(
    nodes: seq<LogicalOp>, input: Option<nat>, parts: seq<Part>, where: Option<Expr>, x: Exec)
    requires Topological(nodes) && (input.Some? ==> input.value < |nodes|)
    requires PathsFresh(parts, {})
    ensures var m := PlanWithWhere(nodes, input, parts, where);
      var cs := ConjunctsOfWhere(where);
      && m.planned.st.pending == []
      && m.residual == Unnumbered(ToKeep(cs, 0, PatternVars(parts)))
      && multiset(Exprs(m.planned.st.placed)) + multiset(m.residual) == multiset(cs)
  {
    var cs, pv := ConjunctsOfWhere(where), PatternVars(parts);
    var pending := ToPlace(cs, 0, pv);
    ToPlaceScoped(cs, 0, pv);
    AllPlaced(nodes, input, parts, pending, x);
    ResidualIsKept(cs, pv);
    SplitCovers(cs, 0, pv);
    ExprsPerm(PlanPattern(Initial(nodes, pending), input, parts).st.placed, pending);
  }

  lemma WholeWhere(placed: seq<Expr>, residual: seq<Expr>, where: Option<Expr>, r: Row, env: Env)
    requires multiset(placed) + multiset(residual) == multiset(ConjunctsOfWhere(where))
    ensures AllTrue(residual + placed, r, env) == AllTrue(WhereList(where), r, env)
  {
    var cs := ConjunctsOfWhere(where);
    forall e ensures e in residual + placed <==> e in cs {
      assert e in cs <==> e in multiset(cs);
      assert e in residual + placed <==> e in multiset(placed) + multiset(residual);
    }
    if where.Some? { ConjunctsDecide(where.value, r, env); }
  }

  lemma WholeWhereKeeps(
    placed: seq<Expr>, residual: seq<Expr>, where: Option<Expr>, rows: seq<Row>, env: Env)
    requires multiset(placed) + multiset(residual) == multiset(ConjunctsOfWhere(where))
    ensures Keep(residual + placed, rows, env) == Keep(WhereList(where), rows, env)
  {
    forall r { WholeWhere(placed, residual, where, r, env); }
    KeepSame(residual + placed, WhereList(where), rows, env);
  }

  /** The residual filter on top of a plan whose rows are already filtered. */
  lemma ResidualFilter(
    p: Planned, placed: seq<Expr>, residual: seq<Expr>, x: Exec, arg: Row, rows: seq<Row>)
    requires Topological(p.st.nodes) && p.node < |p.st.nodes|
    requires Denote(p.st.nodes, p.node, x, arg) == Keep(placed, rows, x.env)
    requires residual != []
    ensures AndAll(residual).Some?
    ensures var nodes := p.st.nodes + [Filter(p.node, AndAll(residual).value)];
      Topological(nodes)
      && Denote(nodes, |p.st.nodes|, x, arg) == Keep(residual + placed, rows, x.env)
  {
    AndAllDecides(residual, map[], x.env);
    DenotePush(p.st.nodes, Filter(p.node, AndAll(residual).value), x, arg);
    FilterIsKeep(p.node, residual, Keep(placed, rows, x.env), x);
    KeepTwice(residual, placed, rows, x.env);
  }

  lemma ResidualKeeps(
    p: Planned, placed: seq<Expr>, residual: seq<Expr>, x: Exec, arg: Row, rows: seq<Row>)
    requires Topological(p.st.nodes) && p.node < |p.st.nodes|
    requires Denote(p.st.nodes, p.node, x, arg) == Keep(placed, rows, x.env)
    ensures var q := WithResidual(p, residual);
      Topological(q.st.nodes) && q.node < |q.st.nodes|
      && Denote(q.st.nodes, q.node, x, arg) == Keep(residual + placed, rows, x.env)
  {
    if residual == [] {
      assert residual + placed == placed;
    } else {
      ResidualFilter(p, placed, residual, x, arg, rows);
    }
  }

  /** Pushing the WHERE into the pattern keeps its rows, in order: the plan
      yields the rows of the bare pattern on which the whole WHERE is true. */
  lemma WhereKeepsRows(
    nodes: seq<LogicalOp>, input: Option<nat>, parts: seq<Part>, where: Option<Expr>, x: Exec, arg: Row)
    requires Topological(nodes) && (input.Some? ==> input.value < |nodes|)
    requires PathsFresh(parts, {})
    ensures var p := PlanMatch(nodes, input, parts, where);
      && Topological(p.st.nodes) && p.node < |p.st.nodes|
      && Denote(p.st.nodes, p.node, x, arg)
      == Keep(WhereList(where),
              MatchPattern(parts, InputRows(nodes, input, x, arg), x), x.env)
  {
    var m, cs := PlanWithWhere(nodes, input, parts, where), ConjunctsOfWhere(where);
    var rows := MatchPattern(parts, InputRows(nodes, input, x, arg), x);
    ToPlaceScoped(cs, 0, PatternVars(parts));
    PatternSound(nodes, input, parts, ToPlace(cs, 0, PatternVars(parts)), x, arg);
    EachConjunctOnce(nodes, input, parts, where, x);
    var placed := Exprs(m.planned.st.placed);
    WholeWhereKeeps(placed, m.residual, where, rows, x.env);
    SameResidual(nodes, input, parts, where);
    ResidualKeeps(m.planned, placed, m.residual, x, arg, rows);
  }
}
