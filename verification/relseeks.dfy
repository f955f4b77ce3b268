/** Replacing an expansion of every node by a seek of relationships. */
module RelSeeks {
  import opened Values
  import opened Expressions
  import opened Conjuncts
  import opened Sorting
  import opened Logical
  import opened Arena
  import opened Planning
  import opened Walks
  import opened RangeBounds
  import opened Accesses
  import opened NodeSeeks
  import opened FilterPush
  import opened Runs

  /** An id seek works over any scan; an index needs a root scan of all
      nodes, and the cost model's word. */
  function RelAccess(scan: LogicalOp, expand: LogicalOp, pred: Expr, site: nat, advice: Advice)
    : Option<Access>
    requires scan.NodeScan? && expand.Expand? && expand.relVar.Some?
  {
    var r := expand.relVar.value;
    var seek := IdSeek(pred, r, REL_ID_FUNCTIONS);
    if seek.Some? then seek
    else if scan.source.Some? || scan.labels != [] then None
    else Picked(RelCandidates(expand.types, pred, r, advice.catalog, advice.round, advice.whole),
                advice.pick(site))
  }

  function RelSeekFor(scan: LogicalOp, expand: LogicalOp, a: Access): LogicalOp
    requires scan.NodeScan? && expand.Expand? && expand.relVar.Some?
  {
    RelSeek(scan.source, expand.src, scan.labels, expand.relVar.value, expand.dst,
            expand.types, expand.direction, a)
  }

  /** Filter over expansion over the scan of its source. */
  predicate IsRelSite(nodes: seq<LogicalOp>, i: nat) {
    i < |nodes| && nodes[i].Filter? && nodes[i].input < |nodes| &&
    (var expand := nodes[nodes[i].input];
     expand.Expand? && expand.relProps.None? && expand.relVar.Some? && expand.input < |nodes|
     && nodes[expand.input].NodeScan? && nodes[expand.input].v == expand.src)
  }

  function RelSeekAt(nodes: seq<LogicalOp>, i: nat, advice: Advice): (out: seq<LogicalOp>)
    ensures |out| == |nodes|
  {
    if !IsRelSite(nodes, i) then nodes
    else
      var expand := nodes[nodes[i].input];
      var scan := nodes[expand.input];
      match RelAccess(scan, expand, nodes[i].pred, i, advice)
      case Some(a) => nodes[nodes[i].input := RelSeekFor(scan, expand, a)]
      case None => nodes
  }

  function RelSeekFrom(nodes: seq<LogicalOp>, i: nat, advice: Advice): (out: seq<LogicalOp>)
    ensures |out| == |nodes|
    decreases |nodes| - i
  {
    if i >= |nodes| then nodes else RelSeekFrom(RelSeekAt(nodes, i, advice), i + 1, advice)
  }

  // ----- a hop is a walk of one step -----

  function HopChain(scan: LogicalOp, expand: LogicalOp): Chain
    requires scan.NodeScan? && expand.Expand?
  {
    Chain(NodePattern(scan.v, scan.labels, None),
          [ChainStep(RelPattern(expand.relVar, expand.types, expand.direction, None),
                     NodePattern(expand.dst, [], None))])
  }

  /** The orientations in which relationship `r` is met, a self-loop once. */
  ghost function RelWalks(g: Graph, r: nat, dir: Direction, types: seq<string>): seq<Walk> {
    if !g.HasRel(r) || !TypeOk(types, g.rels[r].value.typ) then []
    else
      var src, dst := g.rels[r].value.src, g.rels[r].value.dst;
      match dir
      case Right => [Walk(src, [(r, dst)])]
      case Left => [Walk(dst, [(r, src)])]
      case Undirected =>
        [Walk(src, [(r, dst)])] + if src == dst then [] else [Walk(dst, [(r, src)])]
  }

  ghost function AllRelWalks(g: Graph, rels: seq<nat>, dir: Direction, types: seq<string>): seq<Walk> {
    if rels == [] then [] else RelWalks(g, rels[0], dir, types) + AllRelWalks(g, rels[1..], dir, types)
  }

  lemma RelWalksSpec(g: Graph, r: nat, dir: Direction, types: seq<string>)
    ensures NoDup(RelWalks(g, r, dir, types))
    ensures forall w :: w in RelWalks(g, r, dir, types) <==>
      |w.hops| == 1 && w.hops[0].0 == r && HopOk(g, w.start, r, w.hops[0].1, dir, types)
  {
    forall w: Walk | |w.hops| == 1 && w.hops[0].0 == r && HopOk(g, w.start, r, w.hops[0].1, dir, types)
      ensures w in RelWalks(g, r, dir, types)
    {
      assert w.hops == [(r, w.hops[0].1)];
      assert w == Walk(w.start, [(r, w.hops[0].1)]);
    }
  }

  lemma {:induction false} AllRelWalksSpec(g: Graph, rels: seq<nat>, dir: Direction, types: seq<string>)
    requires NoDup(rels)
    ensures NoDup(AllRelWalks(g, rels, dir, types))
    ensures forall w :: w in AllRelWalks(g, rels, dir, types) <==>
      |w.hops| == 1 && w.hops[0].0 in rels && HopOk(g, w.start, w.hops[0].0, w.hops[0].1, dir, types)
  {
    if rels != [] {
      RelWalksSpec(g, rels[0], dir, types);
      AllRelWalksSpec(g, rels[1..], dir, types);
      NoDupConcat(RelWalks(g, rels[0], dir, types), AllRelWalks(g, rels[1..], dir, types));
    }
  }

  /** Summing the relationships at every node is summing the orientations of
      every relationship. */
  lemma SameWalks(g: Graph, c: Chain, dir: Direction, types: seq<string>, ids: seq<nat>, rels: seq<nat>)
    requires g.Valid() && NoDup(ids) && NoDup(rels) && |c.steps| == 1
    requires c.steps[0].rel.direction == dir && c.steps[0].rel.types == types
    requires forall id: nat :: id in ids <==> g.HasNode(id)
    requires forall r: nat :: r in rels <==> g.HasRel(r)
    ensures Perm(AllWalks(g, c, ids), AllRelWalks(g, rels, dir, types))
  {
    AllWalksSpec(g, c, ids);
    AllRelWalksSpec(g, rels, dir, types);
    forall w: Walk ensures w in AllWalks(g, c, ids) <==> w in AllRelWalks(g, rels, dir, types) {
      if |w.hops| == 1 {
        assert c.steps[1..] == [] && w.hops[1..] == [];
        assert HopsOk(g, c.steps, w.start, w.hops)
          <==> HopOk(g, w.start, w.hops[0].0, w.hops[0].1, dir, types);
      }
    }
    NoDupPerm(AllWalks(g, c, ids), AllRelWalks(g, rels, dir, types));
  }

  // ----- the rows of a walk -----

  /** What the filter keeps of a walk's row. */
  ghost function KeptRow(c: Chain, pred: Expr, row: Row, w: Walk, env: Env): seq<Row> {
    Keep([pred], WalkRows(c, row, w, env), env)
  }

  /** The same of a seek that tests the relationship first. */
  ghost function SoughtRow(
    c: Chain, a: Access, pred: Expr, row: Row, w: Walk, env: Env): seq<Row>
  {
    if |w.hops| == 1 && env.graph.HasRel(w.hops[0].0)
       && AccessFinds(a, w.hops[0].0, env.graph.rels[w.hops[0].0].value.props, row, env)
    then KeptRow(c, pred, row, w, env) else []
  }

  ghost function KeptRows(c: Chain, pred: Expr, row: Row, env: Env): Walk -> seq<Row> {
    (w: Walk) => KeptRow(c, pred, row, w, env)
  }

  ghost function SoughtRows(c: Chain, a: Access, pred: Expr, row: Row, env: Env): Walk -> seq<Row> {
    (w: Walk) => SoughtRow(c, a, pred, row, w, env)
  }

  /** The relationship variable is neither node's. */
  predicate RelApart(expand: LogicalOp)
    requires expand.Expand?
  {
    expand.relVar.Some? && expand.relVar.value != expand.src && expand.relVar.value != expand.dst
  }

  lemma NoChecks(c: Chain, scan: LogicalOp, expand: LogicalOp)
    requires scan.NodeScan? && expand.Expand? && c == HopChain(scan, expand)
    ensures NodeChecks(c.head) == [] && StepChecks(c.steps[0]) == []
  {}

  /** Past the source, the seek binds what the expansion would. */
  lemma OrientedIsExpand(
    scan: LogicalOp, expand: LogicalOp, a: Access, r: nat, from: nat, to: nat, row: Row, env: Env)
    requires scan.NodeScan? && expand.Expand? && expand.src == scan.v && expand.relProps.None?
    requires RelApart(expand) && Free1(row, scan.v, NodeRef(from))
    ensures OrientedRow(RelSeekFor(scan, expand, a), r, from, to, row, env)
         == if NodeOk(env.graph, from, scan.labels)
            then ExpandRow(expand, r, to, BindOne(row, scan.v, NodeRef(from)), env) else []
  {
    var rel, dst := expand.relVar.value, expand.dst;
    var mid := BindOne(row, scan.v, NodeRef(from));
    var one: Row, other: Row := mid[rel := RelRef(r)], mid[dst := NodeRef(to)];
    assert one[dst := NodeRef(to)] == other[rel := RelRef(r)];
  }

  /** One orientation of the seek is one walk of the chain. */
  lemma OrientedIsWalk(
    scan: LogicalOp, expand: LogicalOp, a: Access, r: nat, from: nat, to: nat, row: Row, env: Env)
    requires scan.NodeScan? && expand.Expand? && expand.src == scan.v && expand.relProps.None?
    requires RelApart(expand)
    ensures OrientedRow(RelSeekFor(scan, expand, a), r, from, to, row, env)
         == WalkRows(HopChain(scan, expand), row, Walk(from, [(r, to)]), env)
  {
    var c, w := HopChain(scan, expand), Walk(from, [(r, to)]);
    NoChecks(c, scan, expand);
    assert c.steps[1..] == [] && w.hops[1..] == [];
    if HeadRow(c.head, row, from, env).Some? {
      var mid := HeadRow(c.head, row, from, env).value;
      OrientedIsExpand(scan, expand, a, r, from, to, row, env);
      assert ExpandRow(ExpandOf(c.head.v, c.steps[0]), r, to, mid, env) == ExpandRow(expand, r, to, mid, env);
      OneStep(c, mid, r, to, env);
    }
  }

  lemma OneStep(c: Chain, mid: Row, r: nat, to: nat, env: Env)
    requires |c.steps| == 1 && StepChecks(c.steps[0]) == []
    ensures FollowRows(c.head.v, c.steps, mid, [(r, to)], env)
         == ExpandRow(ExpandOf(c.head.v, c.steps[0]), r, to, mid, env)
  {
    var next := ExpandRow(ExpandOf(c.head.v, c.steps[0]), r, to, mid, env);
    assert c.steps[1..] == [] && [(r, to)][1..] == [];
    assert |next| <= 1;
    if next != [] {
      assert AllTrue([], next[0], env);
      assert Follow(c.steps[0].node.v, [], next[0], [], env) == Some(next[0]);
    }
  }

  lemma SoughtOriented(
    scan: LogicalOp, expand: LogicalOp, a: Access, pred: Expr, r: nat, from: nat, to: nat,
    row: Row, env: Env)
    requires scan.NodeScan? && expand.Expand? && expand.src == scan.v && expand.relProps.None?
    requires RelApart(expand) && env.graph.HasRel(r)
    requires AccessFinds(a, r, env.graph.rels[r].value.props, row, env)
    ensures var f := SoughtRows(HopChain(scan, expand), a, pred, row, env);
      FlatMap(f, [Walk(from, [(r, to)])])
      == Keep([pred], OrientedRow(RelSeekFor(scan, expand, a), r, from, to, row, env), env)
  {
    FlatMapOne(SoughtRows(HopChain(scan, expand), a, pred, row, env), Walk(from, [(r, to)]));
    OrientedIsWalk(scan, expand, a, r, from, to, row, env);
  }

  lemma {:induction false} SoughtNothing(
    c: Chain, a: Access, pred: Expr, r: nat, ws: seq<Walk>, row: Row, env: Env)
    requires env.graph.HasRel(r) && !AccessFinds(a, r, env.graph.rels[r].value.props, row, env)
    requires forall w | w in ws :: |w.hops| == 1 && w.hops[0].0 == r
    ensures FlatMap(SoughtRows(c, a, pred, row, env), ws) == []
  {
    if ws != [] {
      assert ws[0] in ws;
      SoughtNothing(c, a, pred, r, ws[1..], row, env);
    }
  }

  lemma RelRowsAreWalks(
    scan: LogicalOp, expand: LogicalOp, a: Access, pred: Expr, r: nat, row: Row, env: Env)
    requires scan.NodeScan? && expand.Expand? && expand.src == scan.v && expand.relProps.None?
    requires RelApart(expand)
    ensures Keep([pred], RelRows(RelSeekFor(scan, expand, a), r, row, env), env)
         == FlatMap(SoughtRows(HopChain(scan, expand), a, pred, row, env),
                    RelWalks(env.graph, r, expand.direction, expand.types))
  {
    var g, op, c := env.graph, RelSeekFor(scan, expand, a), HopChain(scan, expand);
    if g.HasRel(r) && TypeOk(expand.types, g.rels[r].value.typ) {
      if AccessFinds(a, r, g.rels[r].value.props, row, env) {
        RelRowsFound(scan, expand, a, pred, r, row, env);
      } else {
        RelWalksSpec(g, r, expand.direction, expand.types);
        SoughtNothing(c, a, pred, r, RelWalks(g, r, expand.direction, expand.types), row, env);
        assert RelRows(op, r, row, env) == [];
      }
    }
  }

  lemma RelRowsFound(
    scan: LogicalOp, expand: LogicalOp, a: Access, pred: Expr, r: nat, row: Row, env: Env)
    requires scan.NodeScan? && expand.Expand? && expand.src == scan.v && expand.relProps.None?
    requires RelApart(expand) && env.graph.HasRel(r)
    requires TypeOk(expand.types, env.graph.rels[r].value.typ)
    requires AccessFinds(a, r, env.graph.rels[r].value.props, row, env)
    ensures Keep([pred], RelRows(RelSeekFor(scan, expand, a), r, row, env), env)
         == FlatMap(SoughtRows(HopChain(scan, expand), a, pred, row, env),
                    RelWalks(env.graph, r, expand.direction, expand.types))
  {
    var op := RelSeekFor(scan, expand, a);
    var f := SoughtRows(HopChain(scan, expand), a, pred, row, env);
    var src, dst := env.graph.rels[r].value.src, env.graph.rels[r].value.dst;
    SoughtOriented(scan, expand, a, pred, r, src, dst, row, env);
    SoughtOriented(scan, expand, a, pred, r, dst, src, row, env);
    if expand.direction.Undirected? && src != dst {
      KeepConcat([pred], OrientedRow(op, r, src, dst, row, env), OrientedRow(op, r, dst, src, row, env), env);
      FlatMapConcat(f, [Walk(src, [(r, dst)])], [Walk(dst, [(r, src)])]);
    } else if expand.direction.Undirected? {
      assert OrientedRow(op, r, src, dst, row, env) + [] == OrientedRow(op, r, src, dst, row, env);
      assert [Walk(src, [(r, dst)])] + [] == [Walk(src, [(r, dst)])];
    }
  }

  lemma FlatMapOne<A, B>(f: A -> seq<B>, e: A)
    ensures FlatMap(f, [e]) == f(e) && FlatMap(f, []) == []
  {
    assert [e][1..] == [];
  }

  lemma {:induction false} RelSeekRowsAreWalks(
    scan: LogicalOp, expand: LogicalOp, a: Access, pred: Expr, rels: seq<nat>, row: Row, env: Env)
    requires scan.NodeScan? && expand.Expand? && expand.src == scan.v && expand.relProps.None?
    requires RelApart(expand)
    ensures Keep([pred], RelSeekRows(RelSeekFor(scan, expand, a), rels, row, env), env)
         == FlatMap(SoughtRows(HopChain(scan, expand), a, pred, row, env),
                    AllRelWalks(env.graph, rels, expand.direction, expand.types))
  {
    if rels != [] {
      var op := RelSeekFor(scan, expand, a);
      RelSeekRowsAreWalks(scan, expand, a, pred, rels[1..], row, env);
      RelRowsAreWalks(scan, expand, a, pred, rels[0], row, env);
      KeepConcat([pred], RelRows(op, rels[0], row, env), RelSeekRows(op, rels[1..], row, env), env);
      FlatMapConcat(SoughtRows(HopChain(scan, expand), a, pred, row, env),
                    RelWalks(env.graph, rels[0], expand.direction, expand.types),
                    AllRelWalks(env.graph, rels[1..], expand.direction, expand.types));
    }
  }

  // ----- the rows of the expansion -----

  lemma {:induction false} KeepNothing(rows: seq<Row>, env: Env)
    ensures Keep([], rows, env) == rows
  {
    KeepAll([], rows, env);
  }

  lemma HopIsChain(scan: LogicalOp, expand: LogicalOp, row: Row, x: Exec)
    requires scan.NodeScan? && expand.Expand? && expand.src == scan.v && expand.relProps.None?
    ensures StepAll(expand, Step(scan, row, x), x) == MatchChain(HopChain(scan, expand), [row], x)
  {
    var c := HopChain(scan, expand);
    HeadIsScan(scan, c.head, row, x);
    StepAllDetached(expand, Step(scan, row, x), x);
    OneStepMatch(c, Step(scan, row, x), x);
    assert ExpandOf(c.head.v, c.steps[0]) == Detached(expand);
  }

  lemma HeadIsScan(scan: LogicalOp, head: NodePattern, row: Row, x: Exec)
    requires scan.NodeScan? && head == NodePattern(scan.v, scan.labels, None)
    ensures MatchNode(head, [row], x) == Step(scan, row, x)
  {
    assert NodeChecks(head) == [];
    StepDetached(scan, row, x);
    SingleStep(ScanOf(head), row, x);
    KeepNothing(Step(scan, row, x), x.env);
  }

  lemma OneStepMatch(c: Chain, rows: seq<Row>, x: Exec)
    requires |c.steps| == 1 && c.steps[0].node.labels == [] && c.steps[0].node.props.None?
    ensures MatchSteps(c.head.v, c.steps, rows, x) == StepAll(ExpandOf(c.head.v, c.steps[0]), rows, x)
  {
    var next := StepAll(ExpandOf(c.head.v, c.steps[0]), rows, x);
    assert StepChecks(c.steps[0]) == [];
    KeepNothing(next, x.env);
    assert c.steps[1..] == [];
    assert MatchSteps(c.steps[0].node.v, [], next, x) == next;
  }

  lemma {:induction false} KeepFlatMap(f: Walk -> seq<Row>, pred: Expr, ws: seq<Walk>, env: Env)
    ensures Keep([pred], FlatMap(f, ws), env) == FlatMap((w: Walk) => Keep([pred], f(w), env), ws)
  {
    if ws != [] {
      KeepFlatMap(f, pred, ws[1..], env);
      KeepConcat([pred], f(ws[0]), FlatMap(f, ws[1..]), env);
    }
  }

  lemma HopRowsAreWalks(scan: LogicalOp, expand: LogicalOp, pred: Expr, row: Row, x: Exec)
    requires scan.NodeScan? && expand.Expand? && expand.src == scan.v && expand.relProps.None?
    requires ExecValid(x)
    ensures var c := HopChain(scan, expand);
      Keep([pred], StepAll(expand, Step(scan, row, x), x), x.env)
      == FlatMap(KeptRows(c, pred, row, x.env),
                 AllWalks(x.env.graph, c, x.nodeOrder(ScanOf(c.head))))
  {
    var c, env := HopChain(scan, expand), x.env;
    var ws := AllWalks(x.env.graph, c, x.nodeOrder(ScanOf(c.head)));
    HopIsChain(scan, expand, row, x);
    ChainRowsAreWalks(c, row, x);
    KeepFlatMap((w: Walk) => WalkRows(c, row, w, env), pred, ws, env);
    FlatMapSame((w: Walk) => Keep([pred], ((u: Walk) => WalkRows(c, row, u, env))(w), env),
                KeptRows(c, pred, row, env), ws);
  }

  // ----- one site -----

  /** Every match the filter keeps has a relationship the access path finds
      from the row the seek starts with. */
  ghost predicate SeeksEvery(c: Chain, a: Access, pred: Expr, row: Row, ws: seq<Walk>, env: Env) {
    forall w | w in ws :: SoughtRow(c, a, pred, row, w, env) == KeptRow(c, pred, row, w, env)
  }

  ghost function SiteWalks(scan: LogicalOp, expand: LogicalOp, a: Access, x: Exec): seq<Walk>
    requires scan.NodeScan? && expand.Expand? && expand.relVar.Some?
  {
    AllRelWalks(x.env.graph, x.relOrder(Detached(RelSeekFor(scan, expand, a))),
                expand.direction, expand.types)
  }

  lemma {:induction false} FlatMapShorter<A, B>(f: A -> seq<B>, g: A -> seq<B>, s: seq<A>)
    requires forall e | e in s :: f(e) == [] || f(e) == g(e)
    ensures |FlatMap(f, s)| <= |FlatMap(g, s)|
    ensures |FlatMap(f, s)| == |FlatMap(g, s)| ==> forall e | e in s :: f(e) == g(e)
  {
    if s != [] { FlatMapShorter(f, g, s[1..]); }
  }

  /** Rows by walk, kept and sought: permutations exactly when equal on every
      walk. */
  lemma PermIffEach<A, B>(f: A -> seq<B>, g: A -> seq<B>, here: seq<A>, there: seq<A>)
    requires Perm(here, there) && forall e | e in there :: f(e) == [] || f(e) == g(e)
    ensures Perm(FlatMap(g, here), FlatMap(f, there)) <==> forall e | e in there :: f(e) == g(e)
  {
    FlatMapPerm(g, here, there);
    FlatMapShorter(f, g, there);
    if forall e | e in there :: f(e) == g(e) { FlatMapSame(f, g, there); }
    if Perm(FlatMap(g, here), FlatMap(f, there)) {
      PermLength(FlatMap(g, here), FlatMap(f, there));
      PermLength(FlatMap(g, here), FlatMap(g, there));
    }
  }

  /** Exactly when the seek keeps the rows under the filter. */
  lemma SeekKeepsIff(scan: LogicalOp, expand: LogicalOp, a: Access, pred: Expr, row: Row, x: Exec)
    requires scan.NodeScan? && expand.Expand? && expand.src == scan.v && expand.relProps.None?
    requires RelApart(expand) && ExecValid(x)
    ensures Perm(Keep([pred], StepAll(expand, Step(scan, row, x), x), x.env),
                 Keep([pred], Step(RelSeekFor(scan, expand, a), row, x), x.env))
        <==> SeeksEvery(HopChain(scan, expand), a, pred, row, SiteWalks(scan, expand, a, x), x.env)
  {
    var c, ws := HopChain(scan, expand), SiteWalks(scan, expand, a, x);
    var ids := x.nodeOrder(ScanOf(c.head));
    HopRowsAreWalks(scan, expand, pred, row, x);
    SeekRowsAreWalks(scan, expand, a, pred, row, x);
    SiteOrders(c, RelSeekFor(scan, expand, a), x);
    SeeksEach(c, a, pred, row, AllWalks(x.env.graph, c, ids), ws, x.env);
  }

  lemma SeekRowsAreWalks(scan: LogicalOp, expand: LogicalOp, a: Access, pred: Expr, row: Row, x: Exec)
    requires scan.NodeScan? && expand.Expand? && expand.src == scan.v && expand.relProps.None?
    requires RelApart(expand)
    ensures Keep([pred], Step(RelSeekFor(scan, expand, a), row, x), x.env)
         == FlatMap(SoughtRows(HopChain(scan, expand), a, pred, row, x.env), SiteWalks(scan, expand, a, x))
  {
    var op := RelSeekFor(scan, expand, a);
    RelSeekRowsAreWalks(scan, expand, a, pred, x.relOrder(Detached(op)), row, x.env);
  }

  lemma SeeksEach(c: Chain, a: Access, pred: Expr, row: Row, here: seq<Walk>, there: seq<Walk>, env: Env)
    requires Perm(here, there)
    ensures Perm(FlatMap(KeptRows(c, pred, row, env), here), FlatMap(SoughtRows(c, a, pred, row, env), there))
        <==> SeeksEvery(c, a, pred, row, there, env)
  {
    var kept, sought := KeptRows(c, pred, row, env), SoughtRows(c, a, pred, row, env);
    forall w ensures kept(w) == KeptRow(c, pred, row, w, env) && sought(w) == SoughtRow(c, a, pred, row, w, env) {}
    PermIffEach(sought, kept, here, there);
  }

  lemma SiteOrders(c: Chain, op: LogicalOp, x: Exec)
    requires ExecValid(x) && |c.steps| == 1 && op.RelSeek?
    requires c.steps[0].rel.direction == op.direction && c.steps[0].rel.types == op.types
    ensures Perm(AllWalks(x.env.graph, c, x.nodeOrder(ScanOf(c.head))),
                 AllRelWalks(x.env.graph, x.relOrder(Detached(op)), op.direction, op.types))
  {
    var ids, rels := x.nodeOrder(ScanOf(c.head)), x.relOrder(Detached(op));
    forall id: nat ensures id in ids <==> x.env.graph.HasNode(id) {}
    forall r: nat ensures r in rels <==> x.env.graph.HasRel(r) {}
    SameWalks(x.env.graph, c, op.direction, op.types, ids, rels);
  }

  // ====================
  // The relationship-seek pass over the arena, when it keeps the rows, and a query it
  // does lose rows of.

  // ----- when a site is safe -----

  ghost predicate NoTextOnRelLists(types: seq<string>, pred: Expr, v: VarId, g: Graph) {
    FirstText(pred, v).Some? ==>
      forall r: nat | g.HasRel(r) && TypeOk(types, g.rels[r].value.typ) ::
        NotListed(FirstText(pred, v).value, g.rels[r].value.props)
  }

  /** The access path reads neither node the pattern binds. */
  predicate EndsUnread(expand: LogicalOp, a: Access)
    requires expand.Expand?
  {
    expand.src !in AccessVars(a) && expand.dst !in AccessVars(a)
  }

  ghost predicate RelSite(
    scan: LogicalOp, expand: LogicalOp, a: Access, pred: Expr, site: nat, advice: Advice, x: Exec)
  {
    && scan.NodeScan? && expand.Expand? && expand.src == scan.v && expand.relProps.None?
    && RelApart(expand) && RelAccess(scan, expand, pred, site, advice) == Some(a)
    && ExecValid(x) && Builtins(x.env) && OwnElements(pred, expand.relVar.value)
    && NoTextOnRelLists(expand.types, pred, expand.relVar.value, x.env.graph)
    && EndsUnread(expand, a)
  }

  lemma RelTextCandidate(types: seq<string>, pred: Expr, v: VarId, advice: Advice, a: Access)
    requires a in RelCandidates(types, pred, v, advice.catalog, advice.round, advice.whole) && a.ByText?
    ensures FirstText(pred, v) == Some(a)
  {
    var range := CollectBounds(pred, v, advice.round);
    SeekKinds(pred, v, OnEvery(advice.catalog, RangeIndex, types));
    RangeSeeksAreRange(if range.None? then [] else [range.value],
                       OnEvery(advice.catalog, RangeIndex, types));
  }

  lemma RelAccessFound(
    scan: LogicalOp, expand: LogicalOp, a: Access, pred: Expr, site: nat, advice: Advice,
    out: Row, r: nat, x: Exec)
    requires RelSite(scan, expand, a, pred, site, advice, x)
    requires x.env.graph.HasRel(r) && TypeOk(expand.types, x.env.graph.rels[r].value.typ)
    requires expand.relVar.value in out && out[expand.relVar.value] == RelRef(r)
    requires Eval(pred, out, x.env).Truthy()
    ensures Found(a, expand.relVar.value, out, r, x.env.graph.rels[r].value.props, x.env)
  {
    var v, props := expand.relVar.value, x.env.graph.rels[r].value.props;
    assert Binds(out, v, r, props, REL_ID_FUNCTIONS, x.env);
    if IdSeek(pred, v, REL_ID_FUNCTIONS).Some? {
      IdSeekSound(pred, v, out, r, props, REL_ID_FUNCTIONS, x.env);
    } else {
      if a.ByText? { RelTextCandidate(expand.types, pred, v, advice, a); }
      RelCandidateSound(expand.types, pred, v, advice.catalog, advice.round, advice.whole, a,
                        out, r, props, REL_ID_FUNCTIONS, x.env);
    }
  }

  lemma BindOneStable(
    a: Access, r: nat, props: map<string, Value>, v: VarId, value: Value, row: Row, env: Env)
    requires v !in AccessVars(a)
    ensures AccessFinds(a, r, props, BindOne(row, v, value), env) == AccessFinds(a, r, props, row, env)
  {
    AccessStable(a, r, props, v, value, row, env);
  }

  /** A match's row is the input row with at most its three variables bound. */
  lemma HopRow(scan: LogicalOp, expand: LogicalOp, row: Row, w: Walk, env: Env)
    requires scan.NodeScan? && expand.Expand? && expand.src == scan.v && expand.relProps.None?
    requires RelApart(expand) && |w.hops| == 1
    ensures var rows := WalkRows(HopChain(scan, expand), row, w, env);
      rows == [] || (
        var start := BindOne(row, expand.src, NodeRef(w.start));
        var reached := BindOne(start, expand.dst, NodeRef(w.hops[0].1));
        rows == [BindOne(reached, expand.relVar.value, RelRef(w.hops[0].0))]
        && Free1(reached, expand.relVar.value, RelRef(w.hops[0].0)))
  {
    var c := HopChain(scan, expand);
    NoChecks(c, scan, expand);
    assert w.hops == [(w.hops[0].0, w.hops[0].1)];
    var head := HeadRow(c.head, row, w.start, env);
    if head.Some? { OneStep(c, head.value, w.hops[0].0, w.hops[0].1, env); }
  }

  lemma SiteSeeksEvery(
    scan: LogicalOp, expand: LogicalOp, a: Access, pred: Expr, site: nat, advice: Advice,
    row: Row, x: Exec)
    requires RelSite(scan, expand, a, pred, site, advice, x)
    ensures SeeksEvery(HopChain(scan, expand), a, pred, row, SiteWalks(scan, expand, a, x), x.env)
  {
    var c, ws, env := HopChain(scan, expand), SiteWalks(scan, expand, a, x), x.env;
    AllRelWalksSpec(env.graph, x.relOrder(Detached(RelSeekFor(scan, expand, a))),
                    expand.direction, expand.types);
    forall w | w in ws ensures SoughtRow(c, a, pred, row, w, env) == KeptRow(c, pred, row, w, env) {
      HopRow(scan, expand, row, w, env);
      if KeptRow(c, pred, row, w, env) != [] {
        WalkSought(scan, expand, a, pred, site, advice, row, w, x);
      }
    }
  }

  lemma WalkSought(
    scan: LogicalOp, expand: LogicalOp, a: Access, pred: Expr, site: nat, advice: Advice,
    row: Row, w: Walk, x: Exec)
    requires RelSite(scan, expand, a, pred, site, advice, x) && |w.hops| == 1
    requires HopOk(x.env.graph, w.start, w.hops[0].0, w.hops[0].1, expand.direction, expand.types)
    requires KeptRow(HopChain(scan, expand), pred, row, w, x.env) != []
    ensures AccessFinds(a, w.hops[0].0, x.env.graph.rels[w.hops[0].0].value.props, row, x.env)
  {
    HopRow(scan, expand, row, w, x.env);
    var start := BindOne(row, expand.src, NodeRef(w.start));
    var reached := BindOne(start, expand.dst, NodeRef(w.hops[0].1));
    var out := BindOne(reached, expand.relVar.value, RelRef(w.hops[0].0));
    assert KeptRow(HopChain(scan, expand), pred, row, w, x.env) == Keep([pred], [out], x.env);
    assert AllTrue([pred], out, x.env) <==> Eval(pred, out, x.env).Truthy();
    FoundBefore(scan, expand, a, pred, site, advice, row, w.start, w.hops[0].0, w.hops[0].1, x);
  }

  /** What the access path finds once all three are bound, it finds before. */
  lemma FoundBefore(
    scan: LogicalOp, expand: LogicalOp, a: Access, pred: Expr, site: nat, advice: Advice,
    row: Row, from: nat, r: nat, to: nat, x: Exec)
    requires RelSite(scan, expand, a, pred, site, advice, x)
    requires x.env.graph.HasRel(r) && TypeOk(expand.types, x.env.graph.rels[r].value.typ)
    requires var v := expand.relVar.value;
      var reached := BindOne(BindOne(row, expand.src, NodeRef(from)), expand.dst, NodeRef(to));
      Free1(reached, v, RelRef(r)) && Eval(pred, BindOne(reached, v, RelRef(r)), x.env).Truthy()
    ensures AccessFinds(a, r, x.env.graph.rels[r].value.props, row, x.env)
  {
    var v, props := expand.relVar.value, x.env.graph.rels[r].value.props;
    var start := BindOne(row, expand.src, NodeRef(from));
    var reached := BindOne(start, expand.dst, NodeRef(to));
    RelAccessFound(scan, expand, a, pred, site, advice, BindOne(reached, v, RelRef(r)), r, x);
    BindOneStable(a, r, props, v, RelRef(r), reached, x.env);
    BindOneStable(a, r, props, expand.dst, NodeRef(to), start, x.env);
    BindOneStable(a, r, props, expand.src, NodeRef(from), row, x.env);
  }

  lemma {:induction false} HopKeep(
    scan: LogicalOp, expand: LogicalOp, pred: Expr, rows: seq<Row>, x: Exec)
    requires scan.NodeScan? && expand.Expand?
    ensures Keep([pred], StepAll(expand, StepAll(scan, rows, x), x), x.env)
         == FlatMap((row: Row) => Keep([pred], StepAll(expand, Step(scan, row, x), x), x.env), rows)
  {
    if rows != [] {
      HopKeep(scan, expand, pred, rows[1..], x);
      var first, rest := Step(scan, rows[0], x), StepAll(scan, rows[1..], x);
      StepAllConcat(expand, first, rest, x);
      KeepConcat([pred], StepAll(expand, first, x), StepAll(expand, rest, x), x.env);
    }
  }

  /** All rows upstream: the filter keeps the same of either. */
  lemma RelSeekRowsKept(
    scan: LogicalOp, expand: LogicalOp, a: Access, pred: Expr, i: nat, m: nat, advice: Advice,
    rows: seq<Row>, x: Exec)
    requires RelSite(scan, expand, a, pred, i, advice, x)
    ensures Perm(StepAll(Filter(m, pred), StepAll(expand, StepAll(scan, rows, x), x), x),
                 StepAll(Filter(m, pred), StepAll(RelSeekFor(scan, expand, a), rows, x), x))
  {
    var seek := RelSeekFor(scan, expand, a);
    FilterKeeps(m, pred, StepAll(expand, StepAll(scan, rows, x), x), x);
    FilterKeeps(m, pred, StepAll(seek, rows, x), x);
    HopKeep(scan, expand, pred, rows, x);
    StepAllKeep(seek, pred, rows, x);
    var f := (row: Row) => Keep([pred], StepAll(expand, Step(scan, row, x), x), x.env);
    var f' := (row: Row) => Keep([pred], Step(seek, row, x), x.env);
    forall row ensures Perm(f(row), f'(row)) {
      SiteSeeksEvery(scan, expand, a, pred, i, advice, row, x);
      SeekKeepsIff(scan, expand, a, pred, row, x);
    }
    FlatMapPermEach(f, f', rows);
  }

  // ----- the pass -----

  ghost predicate RelSiteFits(nodes: seq<LogicalOp>, i: nat, advice: Advice, g: Graph)
    requires IsRelSite(nodes, i)
  {
    var pred, expand := nodes[i].pred, nodes[nodes[i].input];
    var scan := nodes[expand.input];
    var a := RelAccess(scan, expand, pred, i, advice);
    RelApart(expand) && OwnElements(pred, expand.relVar.value)
    && NoTextOnRelLists(expand.types, pred, expand.relVar.value, g)
    && (a.Some? ==> EndsUnread(expand, a.value))
  }

  ghost predicate RelSitesFit(nodes: seq<LogicalOp>, advice: Advice, g: Graph) {
    forall i | 0 <= i < |nodes| && IsRelSite(nodes, i) :: RelSiteFits(nodes, i, advice, g)
  }

  /** The nodes in use once site `i` is rewritten: the scan is cut off. */
  ghost function RelLiveAt(nodes: seq<LogicalOp>, i: nat, advice: Advice, live: set<nat>): set<nat> {
    if RelSeekAt(nodes, i, advice) == nodes || !IsRelSite(nodes, i) then live
    else live - {nodes[nodes[i].input].input}
  }

  ghost function RelLive(nodes: seq<LogicalOp>, i: nat, advice: Advice, live: set<nat>): set<nat>
    decreases |nodes| - i
  {
    if i >= |nodes| then live
    else RelLive(RelSeekAt(nodes, i, advice), i + 1, advice, RelLiveAt(nodes, i, advice, live))
  }

  lemma SiteShape(root: nat, nodes: seq<LogicalOp>, live: set<nat>, i: nat, advice: Advice)
    requires PlanOk(root, nodes, live) && RelSeekAt(nodes, i, advice) != nodes
    ensures IsRelSite(nodes, i)
    ensures var m := nodes[i].input; var j := nodes[m].input;
      j < m < i && i in live && m in live && j in live && root != m && root != j
      && (forall k: nat | k in live && k < |nodes| && k != i :: m !in Inputs(nodes[k]))
      && (forall k: nat | k in live && k < |nodes| && k != m :: j !in Inputs(nodes[k]))
  {
    var m := nodes[i].input;
    var j := nodes[m].input;
    assert InputsBelow(nodes[i], i) && m in Inputs(nodes[i]);
    assert InputsBelow(nodes[m], m) && j in Inputs(nodes[m]);
    OnlyParent(nodes, live, i, m);
    OnlyParent(nodes, live, m, j);
  }

  lemma RelSeekAtTopological(root: nat, nodes: seq<LogicalOp>, live: set<nat>, i: nat, advice: Advice)
    requires PlanOk(root, nodes, live) && RelSeekAt(nodes, i, advice) != nodes
    ensures Topological(RelSeekAt(nodes, i, advice))
    ensures Region(nodes, RelSeekAt(nodes, i, advice), i, {nodes[i].input, nodes[nodes[i].input].input}, live)
  {
    SiteShape(root, nodes, live, i, advice);
    var out, m := RelSeekAt(nodes, i, advice), nodes[i].input;
    var j := nodes[m].input;
    assert Inputs(out[m]) == Inputs(nodes[j]);
    assert InputsBelow(nodes[j], j);
    forall k | 0 <= k < |out| ensures InputsBelow(out[k], k) {
      if k != m { assert InputsBelow(nodes[k], k); }
    }
  }

  lemma RelSeekAtForest(root: nat, nodes: seq<LogicalOp>, live: set<nat>, i: nat, advice: Advice)
    requires PlanOk(root, nodes, live) && RelSeekAt(nodes, i, advice) != nodes
    ensures PlanOk(root, RelSeekAt(nodes, i, advice), RelLiveAt(nodes, i, advice, live))
  {
    SiteShape(root, nodes, live, i, advice);
    RelSeekAtTopological(root, nodes, live, i, advice);
    var out, m := RelSeekAt(nodes, i, advice), nodes[i].input;
    var j := nodes[m].input;
    assert Inputs(out[m]) == Inputs(nodes[j]);
    assert InputsBelow(nodes[j], j);
    forall p: nat, q: nat, c |
      p in live && q in live && p != j && q != j && p < q < |out| && c in Inputs(out[p])
      ensures c !in Inputs(out[q])
    {
      if p != m && q != m { assert c in Inputs(nodes[p]); }
      if p == m { assert c in Inputs(nodes[j]); OnlyParent(nodes, live, j, c); }
      if q == m && c in Inputs(nodes[j]) { OnlyParent(nodes, live, j, c); }
    }
  }

  lemma RelSeekAtFits(nodes: seq<LogicalOp>, i: nat, advice: Advice, g: Graph)
    requires RelSitesFit(nodes, advice, g)
    ensures RelSitesFit(RelSeekAt(nodes, i, advice), advice, g)
  {
    var out := RelSeekAt(nodes, i, advice);
    forall k | 0 <= k < |out| && IsRelSite(out, k) ensures RelSiteFits(out, k, advice, g) {
      assert IsRelSite(nodes, k);
    }
  }

  // ----- runs -----

  /** The run with the rows the scan and the expansion would have had. */
  ghost function Unsought(nodes: seq<LogicalOp>, i: nat, run: Run, x: Exec): Run
    requires IsRelSite(nodes, i)
  {
    var m := nodes[i].input;
    var j := nodes[m].input;
    var scanned := WithRows(run, j, Stepped(nodes[j], run, x));
    WithRows(scanned, m, Stepped(nodes[m], scanned, x))
  }

  lemma UnsoughtInside(nodes: seq<LogicalOp>, i: nat, run: Run, x: Exec)
    requires Topological(nodes) && IsRelSite(nodes, i)
    ensures var m := nodes[i].input; var j := nodes[m].input;
      && j < m < i && PermitsAll(nodes, Unsought(nodes, i, run, x), j, x)
      && PermitsAll(nodes, Unsought(nodes, i, run, x), m, x)
  {
    var m := nodes[i].input;
    var j := nodes[m].input;
    assert m in Inputs(nodes[i]) && InputsBelow(nodes[i], i);
    assert j in Inputs(nodes[m]) && InputsBelow(nodes[m], m) && InputsBelow(nodes[j], j);
    var before, scanned := Unsought(nodes, i, run, x), WithRows(run, j, Stepped(nodes[j], run, x));
    SteppedPermits(nodes, scanned, m, x);
    forall arg ensures Permits(nodes, before, j, x, arg) {
      RowWisePermits(nodes, before, j, x, arg);
      assert Fed(before, nodes[j].source, arg) == Fed(run, nodes[j].source, arg);
    }
  }

  lemma UnsoughtRows(nodes: seq<LogicalOp>, i: nat, run: Run, x: Exec, arg: Row)
    requires Topological(nodes) && IsRelSite(nodes, i)
    requires nodes[nodes[i].input].input < nodes[i].input < i
    ensures var m := nodes[i].input; var scan := nodes[nodes[m].input];
      Unsought(nodes, i, run, x)(m, arg) == StepAll(nodes[m], StepAll(scan, Fed(run, scan.source, arg), x), x)
    ensures Unsought(nodes, i, run, x)(i, arg) == run(i, arg)
  {}

  lemma RelSeekUnordered(nodes: seq<LogicalOp>, i: nat, a: Access, advice: Advice)
    requires Topological(nodes) && Topological(RelSeekAt(nodes, i, advice)) && IsRelSite(nodes, i)
    requires nodes[nodes[i].input].input < nodes[i].input < i
    requires RelAccess(nodes[nodes[nodes[i].input].input], nodes[nodes[i].input], nodes[i].pred, i, advice) == Some(a)
    ensures var out, m := RelSeekAt(nodes, i, advice), nodes[i].input;
      && out[m] == RelSeekFor(nodes[nodes[m].input], nodes[m], a) && out[i] == nodes[i]
      && !Ordered(nodes, i) && !Ordered(out, i) && !Ordered(out, m)
  {}

  lemma RelSeekMakes(
    scan: LogicalOp, expand: LogicalOp, a: Access, pred: Expr, i: nat, m: nat, advice: Advice,
    rows: seq<Row>, found: seq<Row>, out: seq<Row>, x: Exec)
    requires RelSite(scan, expand, a, pred, i, advice, x)
    requires Perm(found, StepAll(RelSeekFor(scan, expand, a), rows, x)) && Perm(out, StepAll(Filter(m, pred), found, x))
    ensures Perm(out, StepAll(Filter(m, pred), StepAll(expand, StepAll(scan, rows, x), x), x))
  {
    StepAllPerm(Filter(m, pred), found, StepAll(RelSeekFor(scan, expand, a), rows, x), x);
    RelSeekRowsKept(scan, expand, a, pred, i, m, advice, rows, x);
  }

  lemma RelSeekPermits(
    nodes: seq<LogicalOp>, i: nat, a: Access, advice: Advice, run: Run, x: Exec, arg: Row)
    requires Topological(nodes) && Topological(RelSeekAt(nodes, i, advice)) && IsRelSite(nodes, i)
    requires var m := nodes[i].input; var j := nodes[m].input;
      j < m < i && RelSite(nodes[j], nodes[m], a, nodes[i].pred, i, advice, x)
    requires Permits(RelSeekAt(nodes, i, advice), run, i, x, arg)
    requires Permits(RelSeekAt(nodes, i, advice), run, nodes[i].input, x, arg)
    ensures Permits(nodes, Unsought(nodes, i, run, x), i, x, arg)
  {
    var out, m, pred := RelSeekAt(nodes, i, advice), nodes[i].input, nodes[i].pred;
    var expand, scan := nodes[m], nodes[nodes[m].input];
    RelSeekUnordered(nodes, i, a, advice);
    UnsoughtRows(nodes, i, run, x, arg);
    RowWisePermits(out, run, i, x, arg);
    RowWisePermits(out, run, m, x, arg);
    RowWisePermits(nodes, Unsought(nodes, i, run, x), i, x, arg);
    RelSeekMakes(scan, expand, a, pred, i, m, advice, Fed(run, scan.source, arg), run(m, arg), run(i, arg), x);
  }

  lemma RelSeekAtPermits(
    root: nat, nodes: seq<LogicalOp>, live: set<nat>, i: nat, advice: Advice, run: Run, x: Exec)
    requires PlanOk(root, nodes, live) && RelSeekAt(nodes, i, advice) != nodes
    requires Topological(RelSeekAt(nodes, i, advice)) && IsRelSite(nodes, i)
    requires ExecValid(x) && Builtins(x.env) && RelSiteFits(nodes, i, advice, x.env.graph)
    requires IsRun(RelSeekAt(nodes, i, advice), RelLiveAt(nodes, i, advice, live), run, x)
    ensures PermitsAll(nodes, Unsought(nodes, i, run, x), i, x)
  {
    SiteShape(root, nodes, live, i, advice);
    var out, m := RelSeekAt(nodes, i, advice), nodes[i].input;
    var a := RelAccess(nodes[nodes[m].input], nodes[m], nodes[i].pred, i, advice).value;
    assert PermitsAll(out, run, i, x) && PermitsAll(out, run, m, x);
    forall arg ensures Permits(nodes, Unsought(nodes, i, run, x), i, x, arg) {
      RelSeekPermits(nodes, i, a, advice, run, x, arg);
    }
  }

  /** A run of the plan with the seek is a run of the plan with the scan and
      the expansion. */
  lemma RelSeekAtRun(
    root: nat, nodes: seq<LogicalOp>, live: set<nat>, i: nat, advice: Advice, run: Run, x: Exec)
    returns (before: Run)
    requires PlanOk(root, nodes, live) && ExecValid(x) && Builtins(x.env)
    requires RelSitesFit(nodes, advice, x.env.graph) && Topological(RelSeekAt(nodes, i, advice))
    requires IsRun(RelSeekAt(nodes, i, advice), RelLiveAt(nodes, i, advice, live), run, x)
    ensures IsRun(nodes, live, before, x) && forall arg :: before(root, arg) == run(root, arg)
  {
    var out := RelSeekAt(nodes, i, advice);
    if out == nodes { return run; }
    before := SiteRun(root, nodes, live, i, advice, run, x);
  }

  lemma SiteRun(
    root: nat, nodes: seq<LogicalOp>, live: set<nat>, i: nat, advice: Advice, run: Run, x: Exec)
    returns (before: Run)
    requires PlanOk(root, nodes, live) && ExecValid(x) && Builtins(x.env) && RelSeekAt(nodes, i, advice) != nodes
    requires RelSitesFit(nodes, advice, x.env.graph) && Topological(RelSeekAt(nodes, i, advice))
    requires IsRun(RelSeekAt(nodes, i, advice), RelLiveAt(nodes, i, advice, live), run, x)
    ensures IsRun(nodes, live, before, x) && forall arg :: before(root, arg) == run(root, arg)
  {
    var out, m := RelSeekAt(nodes, i, advice), nodes[i].input;
    var j := nodes[m].input;
    SiteShape(root, nodes, live, i, advice);
    RelSeekAtTopological(root, nodes, live, i, advice);
    assert RelSiteFits(nodes, i, advice, x.env.graph);
    before := Unsought(nodes, i, run, x);
    UnsoughtInside(nodes, i, run, x);
    RelSeekAtPermits(root, nodes, live, i, advice, run, x);
    assert !Ordered(nodes, m) && !Ordered(out, m);
    assert forall id: nat | id in {m, j} + {i} :: PermitsAll(nodes, before, id, x);
    assert AgreeOutside(run, before, {m, j});
    RegionRun(nodes, out, i, {m, j}, live, RelLiveAt(nodes, i, advice, live), run, before, x);
  }

  lemma RelSeekAtPlan(root: nat, nodes: seq<LogicalOp>, live: set<nat>, i: nat, advice: Advice, g: Graph)
    requires PlanOk(root, nodes, live) && RelSitesFit(nodes, advice, g)
    ensures PlanOk(root, RelSeekAt(nodes, i, advice), RelLiveAt(nodes, i, advice, live))
    ensures RelSitesFit(RelSeekAt(nodes, i, advice), advice, g)
  {
    RelSeekAtFits(nodes, i, advice, g);
    if RelSeekAt(nodes, i, advice) != nodes { RelSeekAtForest(root, nodes, live, i, advice); }
  }

  /** The whole pass: what is in use stays a forest in topological order. */
  lemma {:induction false} RelSeekKeepsPlan(
    root: nat, nodes: seq<LogicalOp>, live: set<nat>, i: nat, advice: Advice, g: Graph)
    requires PlanOk(root, nodes, live) && RelSitesFit(nodes, advice, g)
    ensures PlanOk(root, RelSeekFrom(nodes, i, advice), RelLive(nodes, i, advice, live))
    decreases |nodes| - i
  {
    if i >= |nodes| { return; }
    RelSeekAtPlan(root, nodes, live, i, advice, g);
    RelSeekKeepsPlan(root, RelSeekAt(nodes, i, advice), RelLiveAt(nodes, i, advice, live), i + 1, advice, g);
  }

  /** And every run after it is a run before it, with the rows of the root. */
  lemma {:induction false} RelSeekRuns(
    root: nat, nodes: seq<LogicalOp>, live: set<nat>, i: nat, advice: Advice, run: Run, x: Exec)
    returns (before: Run)
    requires PlanOk(root, nodes, live) && ExecValid(x) && Builtins(x.env)
    requires RelSitesFit(nodes, advice, x.env.graph) && Topological(RelSeekFrom(nodes, i, advice))
    requires IsRun(RelSeekFrom(nodes, i, advice), RelLive(nodes, i, advice, live), run, x)
    ensures IsRun(nodes, live, before, x) && forall arg :: before(root, arg) == run(root, arg)
    decreases |nodes| - i
  {
    if i >= |nodes| { return run; }
    var out, live' := RelSeekAt(nodes, i, advice), RelLiveAt(nodes, i, advice, live);
    RelSeekAtPlan(root, nodes, live, i, advice, x.env.graph);
    var middle := RelSeekRuns(root, out, live', i + 1, advice, run, x);
    before := RelSeekAtRun(root, nodes, live, i, advice, middle, x);
  }
}
