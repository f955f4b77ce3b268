/** The rows of a relationship chain as an image of the walks in the graph, why
    a chain matches the same rows from either end, and that no choice of ends
    changes the rows of a MATCH. */
module Walks {
  import opened Values
  import opened Expressions
  import opened Conjuncts
  import opened Logical
  import opened Arena
  import opened Planning
  import opened Sorting
  import opened Placement

  // ----- walks -----

  /** A hop takes a relationship to the node at its other end. */
  datatype Walk = Walk(start: nat, hops: seq<(nat, nat)>)

  function NodeOn(w: Walk, i: nat): nat
    requires i <= |w.hops|
  {
    if i == 0 then w.start else w.hops[i - 1].1
  }

  /** Relationship `r` leads from `from` to `to` in direction `dir`. */
  predicate HopOk(g: Graph, from: nat, r: nat, to: nat, dir: Direction, types: seq<string>) {
    g.HasRel(r) && TypeOk(types, g.rels[r].value.typ)
    && (match dir
        case Right => g.rels[r].value.src == from && g.rels[r].value.dst == to
        case Left => g.rels[r].value.dst == from && g.rels[r].value.src == to
        case Undirected =>
          (g.rels[r].value.src == from && g.rels[r].value.dst == to)
          || (g.rels[r].value.dst == from && g.rels[r].value.src == to))
  }

  ghost predicate HopsOk(g: Graph, steps: seq<ChainStep>, from: nat, hops: seq<(nat, nat)>)
    decreases |steps|
  {
    |hops| == |steps| &&
    (steps != [] ==>
       HopOk(g, from, hops[0].0, hops[0].1, steps[0].rel.direction, steps[0].rel.types)
       && HopsOk(g, steps[1..], hops[0].1, hops[1..]))
  }

  ghost predicate WalkOk(g: Graph, c: Chain, w: Walk) {
    g.HasNode(w.start) && HopsOk(g, c.steps, w.start, w.hops)
  }

  // ----- listing walks -----

  lemma NoDupConcat<T>(a: seq<T>, b: seq<T>)
    requires NoDup(a) && NoDup(b)
    requires forall e | e in a :: e !in b
    ensures NoDup(a + b)
  {
    forall i, j | 0 <= i < j < |a + b| ensures (a + b)[i] != (a + b)[j] {
      if i < |a| <= j { assert a[i] in a && b[j - |a|] in b; }
    }
  }

  lemma {:induction false} OutgoingSpec(g: Graph, n: nat, types: seq<string>, below: nat)
    requires below <= |g.rels|
    ensures NoDup(Outgoing(g, n, types, below))
    ensures forall e :: e in Outgoing(g, n, types, below) <==>
      e.0 < below && HopOk(g, n, e.0, e.1, Right, types)
  {
    if below > 0 { OutgoingSpec(g, n, types, below - 1); }
  }

  lemma {:induction false} IncomingSpec(
    g: Graph, n: nat, types: seq<string>, skipLoops: bool, below: nat)
    requires below <= |g.rels|
    ensures NoDup(Incoming(g, n, types, skipLoops, below))
    ensures forall e :: e in Incoming(g, n, types, skipLoops, below) <==>
      e.0 < below && HopOk(g, n, e.0, e.1, Left, types) && !(skipLoops && e.1 == n)
  {
    if below > 0 { IncomingSpec(g, n, types, skipLoops, below - 1); }
  }

  /** An expansion meets every hop once, a self-loop included. */
  lemma ExpandFromSpec(g: Graph, n: nat, dir: Direction, types: seq<string>)
    ensures NoDup(ExpandFrom(g, n, dir, types))
    ensures forall e :: e in ExpandFrom(g, n, dir, types) <==> HopOk(g, n, e.0, e.1, dir, types)
  {
    OutgoingSpec(g, n, types, |g.rels|);
    IncomingSpec(g, n, types, dir.Undirected?, |g.rels|);
  }

  ghost function PrefixAll(e: (nat, nat), tails: seq<seq<(nat, nat)>>): seq<seq<(nat, nat)>> {
    if tails == [] then [] else [[e] + tails[0]] + PrefixAll(e, tails[1..])
  }

  ghost function HopLists(g: Graph, steps: seq<ChainStep>, from: nat): seq<seq<(nat, nat)>>
    decreases |steps|, 1, 0
  {
    if steps == [] then [[]]
    else HopListsVia(g, steps, ExpandFrom(g, from, steps[0].rel.direction, steps[0].rel.types))
  }

  ghost function HopListsVia(g: Graph, steps: seq<ChainStep>, edges: seq<(nat, nat)>)
    : seq<seq<(nat, nat)>>
    requires steps != []
    decreases |steps|, 0, |edges|
  {
    if edges == [] then []
    else PrefixAll(edges[0], HopLists(g, steps[1..], edges[0].1)) + HopListsVia(g, steps, edges[1..])
  }

  lemma {:induction false} PrefixAllSpec(e: (nat, nat), tails: seq<seq<(nat, nat)>>)
    ensures forall h: seq<(nat, nat)> :: h in PrefixAll(e, tails) <==> h != [] && h[0] == e && h[1..] in tails
    ensures NoDup(tails) ==> NoDup(PrefixAll(e, tails))
  {
    if tails != [] {
      PrefixAllSpec(e, tails[1..]);
      assert ([e] + tails[0])[1..] == tails[0];
      forall h ensures h in PrefixAll(e, tails) <==> h != [] && h[0] == e && h[1..] in tails {
        if h != [] && h[0] == e && h[1..] == tails[0] { assert h == [e] + tails[0]; }
      }
    }
  }

  lemma {:induction false} HopListsSpec(g: Graph, steps: seq<ChainStep>, from: nat)
    ensures NoDup(HopLists(g, steps, from))
    ensures forall h :: h in HopLists(g, steps, from) <==> HopsOk(g, steps, from, h)
    decreases |steps|, 1, 0
  {
    if steps != [] {
      var edges := ExpandFrom(g, from, steps[0].rel.direction, steps[0].rel.types);
      ExpandFromSpec(g, from, steps[0].rel.direction, steps[0].rel.types);
      HopListsViaSpec(g, steps, edges);
    }
  }

  lemma {:induction false} HopListsViaSpec(g: Graph, steps: seq<ChainStep>, edges: seq<(nat, nat)>)
    requires steps != [] && NoDup(edges)
    ensures NoDup(HopListsVia(g, steps, edges))
    ensures forall h: seq<(nat, nat)> :: h in HopListsVia(g, steps, edges) <==>
      h != [] && h[0] in edges && HopsOk(g, steps[1..], h[0].1, h[1..])
    decreases |steps|, 0, |edges|
  {
    if edges != [] {
      HopListsSpec(g, steps[1..], edges[0].1);
      PrefixAllSpec(edges[0], HopLists(g, steps[1..], edges[0].1));
      HopListsViaSpec(g, steps, edges[1..]);
      NoDupConcat(PrefixAll(edges[0], HopLists(g, steps[1..], edges[0].1)),
                  HopListsVia(g, steps, edges[1..]));
    }
  }

  ghost function WalksAt(n: nat, hopLists: seq<seq<(nat, nat)>>): seq<Walk> {
    if hopLists == [] then [] else [Walk(n, hopLists[0])] + WalksAt(n, hopLists[1..])
  }

  /** The walks along `c` from each of `starts` in turn. */
  ghost function AllWalks(g: Graph, c: Chain, starts: seq<nat>): seq<Walk> {
    if starts == [] then []
    else WalksAt(starts[0], HopLists(g, c.steps, starts[0])) + AllWalks(g, c, starts[1..])
  }

  lemma {:induction false} WalksAtSpec(n: nat, hopLists: seq<seq<(nat, nat)>>)
    ensures forall w :: w in WalksAt(n, hopLists) <==> w.start == n && w.hops in hopLists
    ensures NoDup(hopLists) ==> NoDup(WalksAt(n, hopLists))
  {
    if hopLists != [] { WalksAtSpec(n, hopLists[1..]); }
  }

  lemma {:induction false} AllWalksSpec(g: Graph, c: Chain, starts: seq<nat>)
    requires NoDup(starts)
    ensures NoDup(AllWalks(g, c, starts))
    ensures forall w :: w in AllWalks(g, c, starts) <==>
      w.start in starts && HopsOk(g, c.steps, w.start, w.hops)
  {
    if starts != [] {
      HopListsSpec(g, c.steps, starts[0]);
      WalksAtSpec(starts[0], HopLists(g, c.steps, starts[0]));
      AllWalksSpec(g, c, starts[1..]);
    }
  }

  // ----- binding a walk -----

  ghost function HopBinds(s: ChainStep, hop: (nat, nat)): set<(VarId, Value)> {
    {(s.node.v, NodeRef(hop.1))}
    + if s.rel.v.Some? then {(s.rel.v.value, RelRef(hop.0))} else {}
  }

  ghost function HopsBind(steps: seq<ChainStep>, hops: seq<(nat, nat)>): set<(VarId, Value)>
    requires |hops| == |steps|
  {
    if steps == [] then {} else HopBinds(steps[0], hops[0]) + HopsBind(steps[1..], hops[1..])
  }

  /** The bindings a walk makes, in no order. */
  ghost function WalkBinds(c: Chain, w: Walk): set<(VarId, Value)>
    requires |w.hops| == |c.steps|
  {
    {(c.head.v, NodeRef(w.start))} + HopsBind(c.steps, w.hops)
  }

  ghost function VarsOf(binds: set<(VarId, Value)>): set<VarId> { set b | b in binds :: b.0 }

  /** `out` is `row` with exactly `binds` added, none of which it contradicts. */
  ghost predicate Bound(row: Row, binds: set<(VarId, Value)>, out: Row) {
    && out.Keys == row.Keys + VarsOf(binds)
    && (forall v | v in row :: out[v] == row[v])
    && (forall b | b in binds :: b.0 in out && out[b.0] == b.1)
  }

  lemma BoundUnique(row: Row, binds: set<(VarId, Value)>, a: Row, b: Row)
    requires Bound(row, binds, a) && Bound(row, binds, b)
    ensures a == b
  {
    forall v | v in a.Keys ensures a[v] == b[v] {
      if v !in row { var p :| p in binds && p.0 == v; }
    }
  }

  lemma BoundTwice(row: Row, p: set<(VarId, Value)>, mid: Row, q: set<(VarId, Value)>, out: Row)
    requires Bound(row, p, mid)
    ensures Bound(mid, q, out) <==> Bound(row, p + q, out)
  {
    assert VarsOf(p + q) == VarsOf(p) + VarsOf(q);
    if Bound(row, p + q, out) {
      forall v | v in mid ensures out[v] == mid[v] {
        if v !in row {
          var b :| b in p && b.0 == v;
          assert b in p + q;
        }
      }
    }
    if Bound(mid, q, out) {
      forall b | b in p ensures b.0 in out && out[b.0] == b.1 {
        assert b.0 in mid;
      }
    }
  }

  lemma {:induction false} HopsBindVars(steps: seq<ChainStep>, hops: seq<(nat, nat)>)
    requires |hops| == |steps|
    ensures VarsOf(HopsBind(steps, hops)) == StepsVars(steps)
  {
    if steps != [] {
      HopsBindVars(steps[1..], hops[1..]);
      var rest := HopsBind(steps[1..], hops[1..]);
      assert VarsOf(HopBinds(steps[0], hops[0]) + rest)
          == VarsOf(HopBinds(steps[0], hops[0])) + VarsOf(rest);
      HopBindsVars(steps[0], hops[0]);
    }
  }

  lemma HopBindsVars(s: ChainStep, hop: (nat, nat))
    ensures VarsOf(HopBinds(s, hop)) == StepVars(s)
  {
    var binds := HopBinds(s, hop);
    assert (s.node.v, NodeRef(hop.1)) in binds;
    if s.rel.v.Some? { assert (s.rel.v.value, RelRef(hop.0)) in binds; }
  }

  // ----- well-formed chains -----

  /** The variables a walk has bound when it stands on node `i`: those the
      inline map of that node sees, and the map of the relationship after it. */
  function Met(c: Chain, i: nat): set<VarId>
    requires i <= |c.steps|
  {
    {c.head.v} + StepsVars(c.steps[..i])
  }

  /** The map reads the same variables whether `a` or `b` is bound. */
  ghost predicate SeesAlike(props: Option<Expr>, a: set<VarId>, b: set<VarId>) {
    props.Some? ==> Free(props.value) * a == Free(props.value) * b
  }

  ghost predicate NodeSeesAlike(c: Chain, r: Chain, bound: set<VarId>, i: nat)
    requires i <= |c.steps| == |r.steps|
  {
    SeesAlike(NodeAt(c, i).props, bound + Met(c, i), bound + Met(r, |c.steps| - i))
  }

  ghost predicate RelSeesAlike(c: Chain, r: Chain, bound: set<VarId>, i: nat)
    requires i < |c.steps| == |r.steps|
  {
    SeesAlike(c.steps[i].rel.props, bound + Met(c, i), bound + Met(r, |c.steps| - 1 - i))
  }

  ghost predicate SeeAlike(c: Chain, r: Chain, bound: set<VarId>)
    requires |c.steps| == |r.steps|
  {
    (forall i | 0 <= i <= |c.steps| :: NodeSeesAlike(c, r, bound, i))
    && (forall i | 0 <= i < |c.steps| :: RelSeesAlike(c, r, bound, i))
  }

  /** Where `bound` is bound already, every inline map finds the same of its
      variables bound from either end of the chain. */
  ghost predicate MapsSeeAlike(c: Chain, bound: set<VarId>) { SeeAlike(c, ReverseChain(c), bound) }

  ghost predicate LabelsNamed(labels: Labels) { forall group | group in labels :: group != [] }

  ghost predicate StepNamed(s: ChainStep) { LabelsNamed(s.node.labels) && s.rel.v != Some(s.node.v) }

  ghost predicate StepsNamed(steps: seq<ChainStep>) {
    forall i | 0 <= i < |steps| :: StepNamed(steps[i])
  }

  /** No relationship is named like the node it leaves. */
  ghost predicate SourcesApart(c: Chain) {
    forall i | 0 <= i < |c.steps| :: c.steps[i].rel.v != Some(NodeAt(c, i).v)
  }

  /** No label group is empty, as the parser sees to, and no relationship is
      named like a node at one of its ends. */
  ghost predicate Named(c: Chain) {
    LabelsNamed(c.head.labels) && StepsNamed(c.steps) && SourcesApart(c)
  }

  ghost predicate ChainWellFormed(c: Chain, bound: set<VarId>) { Named(c) && MapsSeeAlike(c, bound) }

  /** A scan meets every node once and a relationship scan every
      relationship once; `node.has_label` tells a node's labels. */
  ghost predicate ExecValid(x: Exec) {
    && x.env.graph.Valid()
    && (forall op :: NoDup(x.nodeOrder(op)))
    && (forall op, id :: id in x.nodeOrder(op) <==> x.env.graph.HasNode(id))
    && (forall op :: NoDup(x.relOrder(op)))
    && (forall op, id :: id in x.relOrder(op) <==> x.env.graph.HasRel(id))
    && LabelCalls(x.env)
  }

  ghost predicate LabelCalls(env: Env) {
    forall id: nat, l: string :: env.call(HAS_LABEL, [NodeRef(id), Text(l)])
                 == Bool(env.graph.HasNode(id) && l in env.graph.nodes[id].value.labels)
  }

  // ----- the checks of a walk, on its final row -----

  /** Node `id` fits, its map read on the part of `out` bound by then. */
  ghost predicate NodeFits(n: NodePattern, id: nat, out: Row, seen: set<VarId>, env: Env) {
    NodeOk(env.graph, id, n.labels) && AllTrue(PropertyCheck(n.v, n.props), Restrict(out, seen), env)
  }

  ghost predicate RelFits(rel: RelPattern, r: nat, out: Row, seen: set<VarId>, env: Env) {
    RelPropsOk(env.graph, r, rel.props, Restrict(out, seen), env)
  }

  ghost predicate HopFits(s: ChainStep, hop: (nat, nat), out: Row, seen: set<VarId>, env: Env) {
    RelFits(s.rel, hop.0, out, seen, env) && NodeFits(s.node, hop.1, out, seen + StepVars(s), env)
  }

  ghost predicate HopsFit(
    steps: seq<ChainStep>, hops: seq<(nat, nat)>, out: Row, seen: set<VarId>, env: Env)
    requires |hops| == |steps|
    decreases |steps|
  {
    steps == [] ||
    (HopFits(steps[0], hops[0], out, seen, env)
     && HopsFit(steps[1..], hops[1..], out, seen + StepVars(steps[0]), env))
  }

  /** Everything a match must satisfy. */
  ghost predicate WalkMatches(c: Chain, w: Walk, row: Row, out: Row, env: Env)
    requires |w.hops| == |c.steps|
  {
    && Bound(row, WalkBinds(c, w), out)
    && NodeFits(c.head, w.start, out, row.Keys + {c.head.v}, env)
    && HopsFit(c.steps, w.hops, out, row.Keys + {c.head.v}, env)
  }

  // ----- what one walk yields, step by step -----

  /** The row after following `hops`, if every check passes on the way. */
  function Follow(src: VarId, steps: seq<ChainStep>, row: Row, hops: seq<(nat, nat)>, env: Env)
    : Option<Row>
    requires |hops| == |steps|
    decreases |steps|
  {
    if steps == [] then Some(row)
    else
      var next := ExpandRow(ExpandOf(src, steps[0]), hops[0].0, hops[0].1, row, env);
      if next == [] || !AllTrue(StepChecks(steps[0]), next[0], env) then None
      else Follow(steps[0].node.v, steps[1..], next[0], hops[1..], env)
  }

  function HeadRow(n: NodePattern, row: Row, id: nat, env: Env): Option<Row> {
    if Free1(row, n.v, NodeRef(id)) && NodeOk(env.graph, id, n.labels) then
      var bound := BindOne(row, n.v, NodeRef(id));
      if AllTrue(NodeChecks(n), bound, env) then Some(bound) else None
    else None
  }

  function WalkRow(c: Chain, row: Row, w: Walk, env: Env): Option<Row>
    requires |w.hops| == |c.steps|
  {
    match HeadRow(c.head, row, w.start, env)
    case None => None
    case Some(bound) => Follow(c.head.v, c.steps, bound, w.hops, env)
  }

  // ----- checks do not change along a walk -----

  lemma {:induction false} GroupCheckValue(v: VarId, group: seq<string>, id: nat, out: Row, env: Env)
    requires group != [] && v in out && out[v] == NodeRef(id)
    requires LabelCalls(env) && env.graph.HasNode(id)
    ensures Eval(GroupCheck(v, group), out, env).Truthy()
        <==> exists l :: l in group && l in env.graph.nodes[id].value.labels
  {
    var last := group[|group| - 1];
    var args := [Variable(v), Literal(Text(last))];
    assert args[1..] == [Literal(Text(last))];
    assert EvalAll(args[1..], out, env) == [Text(last)];
    assert EvalAll(args, out, env) == [NodeRef(id), Text(last)];
    if |group| > 1 {
      var init := group[..|group| - 1];
      GroupCheckValue(v, init, id, out, env);
      OrTruthy(Eval(GroupCheck(v, init), out, env), Eval(HasLabel(v, last), out, env));
      assert group == init + [last];
    } else {
      assert group == [last];
    }
  }

  lemma {:induction false} GroupChecksValue(v: VarId, labels: Labels, id: nat, out: Row, env: Env)
    requires LabelsNamed(labels)
    requires v in out && out[v] == NodeRef(id) && LabelCalls(env) && env.graph.HasNode(id)
    ensures AllTrue(GroupChecks(v, labels), out, env)
        <==> LabelsMatch(labels, env.graph.nodes[id].value.labels)
  {
    if labels != [] {
      var have := env.graph.nodes[id].value.labels;
      assert labels[0] in labels;
      assert forall group :: group in labels <==> group == labels[0] || group in labels[1..];
      assert LabelsMatch(labels, have)
        <==> (exists l | l in labels[0] :: l in have) && LabelsMatch(labels[1..], have);
      GroupChecksValue(v, labels[1..], id, out, env);
      GroupCheckValue(v, labels[0], id, out, env);
      var first, rest := GroupCheck(v, labels[0]), GroupChecks(v, labels[1..]);
      assert GroupChecks(v, labels) == [first] + rest;
      assert AllTrue([first] + rest, out, env)
        <==> Eval(first, out, env).Truthy() && AllTrue(rest, out, env) by {
        assert forall e :: e in [first] + rest <==> e == first || e in rest;
      }
    }
  }

  /** The label filter above an expansion tests what a scan would. */
  lemma LabelCheckValue(v: VarId, labels: Labels, id: nat, out: Row, env: Env)
    requires LabelsNamed(labels)
    requires v in out && out[v] == NodeRef(id) && LabelCalls(env) && env.graph.HasNode(id)
    ensures AllTrue(LabelCheck(v, labels), out, env)
        <==> LabelsMatch(labels, env.graph.nodes[id].value.labels)
  {
    GroupChecksValue(v, labels, id, out, env);
    AndAllDecides(GroupChecks(v, labels), out, env);
  }

  /** An inline map has the same value on two parts of a row that show it the
      same variables. */
  lemma SeenAlike(e: Expr, out: Row, a: set<VarId>, b: set<VarId>, env: Env)
    requires Free(e) * a == Free(e) * b
    ensures Eval(e, Restrict(out, a), env) == Eval(e, Restrict(out, b), env)
  {
    forall v | v in Free(e) ensures v in a <==> v in b {
      assert v in Free(e) * a <==> v in Free(e) * b;
    }
    Coincidence(e, Restrict(out, a), Restrict(out, b), env);
  }

  lemma {:induction false} EntryChecksStable(
    v: VarId, entries: seq<Entry>, out: Row, a: set<VarId>, b: set<VarId>, env: Env)
    requires FreeEntries(entries) * a == FreeEntries(entries) * b && v in a && v in b
    ensures AllTrue(EntryChecks(v, entries), Restrict(out, a), env)
         == AllTrue(EntryChecks(v, entries), Restrict(out, b), env)
  {
    if entries != [] {
      var first, others := Free(entries[0].value), FreeEntries(entries[1..]);
      forall u | u in first + others ensures u in a <==> u in b {
        assert u in FreeEntries(entries) * a <==> u in FreeEntries(entries) * b;
      }
      EntryChecksStable(v, entries[1..], out, a, b, env);
      SeenAlike(entries[0].value, out, a, b, env);
      SeenAlike(Variable(v), out, a, b, env);
      var check := Binary(Property(Variable(v), entries[0].key), Eq, entries[0].value);
      var rest := EntryChecks(v, entries[1..]);
      assert Eval(check.lhs, Restrict(out, a), env) == Eval(check.lhs, Restrict(out, b), env);
      assert forall e :: e in [check] + rest <==> e == check || e in rest;
    }
  }

  lemma {:induction false} EntryChecksIs(v: VarId, entries: seq<Entry>, row: Row, env: Env)
    ensures AllTrue(EntryChecks(v, entries), row, env) <==>
      forall e | e in entries :: Equal3(PropertyOf(Lookup(row, v), e.key, env), Eval(e.value, row, env)).Truthy()
  {
    if entries == [] { return; }
    var check := Binary(Property(Variable(v), entries[0].key), Eq, entries[0].value);
    EntryChecksIs(v, entries[1..], row, env);
    assert EntryChecks(v, entries) == [check] + EntryChecks(v, entries[1..]);
    AllTrueSplit(check, EntryChecks(v, entries[1..]), row, env);
    assert Eval(Property(Variable(v), entries[0].key), row, env) == PropertyOf(Lookup(row, v), entries[0].key, env);
  }

  lemma AllTrueSplit(e: Expr, es: seq<Expr>, row: Row, env: Env)
    ensures AllTrue([e] + es, row, env) <==> Eval(e, row, env).Truthy() && AllTrue(es, row, env)
  {
    assert forall s | s in es :: s in [e] + es;
  }

  /** An inline map holds of a row exactly when every one of its keys is equal
      to its value there. */
  lemma InlineMapIs(v: VarId, entries: seq<Entry>, row: Row, env: Env)
    ensures AllTrue(PropertyCheck(v, Some(MapOf(entries))), row, env) <==>
      forall e | e in entries :: Equal3(PropertyOf(Lookup(row, v), e.key, env), Eval(e.value, row, env)).Truthy()
  {
    EntryChecksIs(v, entries, row, env);
    AndAllDecides(EntryChecks(v, entries), row, env);
  }

  lemma PropertyCheckStable(
    v: VarId, props: Option<Expr>, out: Row, a: set<VarId>, b: set<VarId>, env: Env)
    requires SeesAlike(props, a, b) && v in a && v in b
    ensures AllTrue(PropertyCheck(v, props), Restrict(out, a), env)
         == AllTrue(PropertyCheck(v, props), Restrict(out, b), env)
  {
    if props.Some? && props.value.MapOf? {
      EntryChecksStable(v, props.value.entries, out, a, b, env);
      AndAllDecides(EntryChecks(v, props.value.entries), Restrict(out, a), env);
      AndAllDecides(EntryChecks(v, props.value.entries), Restrict(out, b), env);
    }
  }

  lemma RelFitsStable(rel: RelPattern, r: nat, out: Row, a: set<VarId>, b: set<VarId>, env: Env)
    requires SeesAlike(rel.props, a, b)
    ensures RelFits(rel, r, out, a, env) == RelFits(rel, r, out, b, env)
  {
    if rel.props.Some? { SeenAlike(rel.props.value, out, a, b, env); }
  }

  /** The part of `out` bound before is the row that was extended to it. */
  lemma BoundRestricts(row: Row, binds: set<(VarId, Value)>, out: Row)
    requires Bound(row, binds, out)
    ensures Restrict(out, row.Keys) == row
  {}

  // ====================
  // A chain matches the same rows from either end.

  // ----- one hop -----

  /** An expansion over one hop succeeds exactly when its bindings agree. */
  lemma ExpandRowIff(
    src: VarId, s: ChainStep, hop: (nat, nat), row: Row, mid: Row, env: Env)
    requires s.rel.v.Some? ==> s.rel.v.value != s.node.v
    ensures ExpandRow(ExpandOf(src, s), hop.0, hop.1, row, env) == [mid]
        <==> Bound(row, HopBinds(s, hop), mid) && RelPropsOk(env.graph, hop.0, s.rel.props, row, env)
  {
    HopBindsVars(s, hop);
    var binds := HopBinds(s, hop);
    var next := ExpandRow(ExpandOf(src, s), hop.0, hop.1, row, env);
    assert (s.node.v, NodeRef(hop.1)) in binds;
    if s.rel.v.Some? { assert (s.rel.v.value, RelRef(hop.0)) in binds; }
    if next != [] {
      assert Bound(row, binds, next[0]);
      if Bound(row, binds, mid) { BoundUnique(row, binds, mid, next[0]); }
    }
  }

  /** The part of `out` that `binds` and the row account for. */
  ghost function Part1(row: Row, binds: set<(VarId, Value)>, out: Row): Row
    requires row.Keys + VarsOf(binds) <= out.Keys
  {
    map v | v in row.Keys + VarsOf(binds) :: out[v]
  }

  lemma PartBinds(row: Row, binds: set<(VarId, Value)>, rest: set<(VarId, Value)>, out: Row)
    requires Bound(row, binds + rest, out)
    ensures row.Keys + VarsOf(binds) <= out.Keys
    ensures Bound(row, binds, Part1(row, binds, out)) && Bound(Part1(row, binds, out), rest, out)
  {
    assert VarsOf(binds + rest) == VarsOf(binds) + VarsOf(rest);
    var mid := Part1(row, binds, out);
    forall b | b in binds ensures b.0 in mid && mid[b.0] == b.1 { assert b in binds + rest; }
    BoundTwice(row, binds, mid, rest, out);
  }

  /** A step's checks on the row after the hop say what `NodeFits` says of
      the final row. */
  lemma StepChecksValue(s: ChainStep, id: nat, mid: Row, rest: set<(VarId, Value)>, out: Row, env: Env)
    requires StepNamed(s) && LabelCalls(env) && env.graph.HasNode(id)
    requires s.node.v in mid && mid[s.node.v] == NodeRef(id) && Bound(mid, rest, out)
    ensures AllTrue(StepChecks(s), mid, env) <==> NodeFits(s.node, id, out, mid.Keys, env)
  {
    var v := s.node.v;
    LabelCheckValue(v, s.node.labels, id, mid, env);
    BoundRestricts(mid, rest, out);
    var labels, props := LabelCheck(v, s.node.labels), PropertyCheck(v, s.node.props);
    assert forall e :: e in labels + props <==> e in labels || e in props;
  }

  // ----- following a walk -----

  /** Following hops yields `out` exactly when `out` adds their bindings and
      every hop fits. */
  lemma {:induction false} FollowIff(
    src: VarId, steps: seq<ChainStep>, row: Row, from: nat, hops: seq<(nat, nat)>, out: Row, env: Env)
    requires |hops| == |steps| && StepsNamed(steps)
    requires LabelCalls(env) && env.graph.Valid() && HopsOk(env.graph, steps, from, hops)
    ensures Follow(src, steps, row, hops, env) == Some(out)
        <==> Bound(row, HopsBind(steps, hops), out) && HopsFit(steps, hops, out, row.Keys, env)
    decreases |steps|
  {
    if steps == [] {
      assert Bound(row, {}, row);
      if Bound(row, {}, out) { BoundUnique(row, {}, out, row); }
    } else {
      FollowHop(src, steps, row, from, hops, out, env);
    }
  }

  lemma {:induction false} FollowHop(
    src: VarId, steps: seq<ChainStep>, row: Row, from: nat, hops: seq<(nat, nat)>, out: Row, env: Env)
    requires |hops| == |steps| && steps != [] && StepsNamed(steps)
    requires LabelCalls(env) && env.graph.Valid() && HopsOk(env.graph, steps, from, hops)
    ensures Follow(src, steps, row, hops, env) == Some(out)
        <==> Bound(row, HopsBind(steps, hops), out) && HopsFit(steps, hops, out, row.Keys, env)
    decreases |steps|, 0
  {
    var s, hop, rest := steps[0], hops[0], HopsBind(steps[1..], hops[1..]);
    var binds := HopBinds(s, hop);
    var next := ExpandRow(ExpandOf(src, s), hop.0, hop.1, row, env);
    assert StepNamed(s);
    if next != [] {
      var mid := next[0];
      ExpandRowIff(src, s, hop, row, mid, env);
      HopBindsVars(s, hop);
      HopDecides(s, hop, row, mid, rest, out, env);
      FollowIff(s.node.v, steps[1..], mid, hop.1, hops[1..], out, env);
      BoundTwice(row, binds, mid, rest, out);
    } else if Bound(row, binds + rest, out) && HopFits(s, hop, out, row.Keys, env) {
      FitHasRow(src, s, hop, row, rest, out, env);
    }
  }

  /** A hop that fits the match has its row. */
  lemma FitHasRow(
    src: VarId, s: ChainStep, hop: (nat, nat), row: Row, rest: set<(VarId, Value)>, out: Row, env: Env)
    requires StepNamed(s) && LabelCalls(env) && env.graph.HasNode(hop.1)
    requires Bound(row, HopBinds(s, hop) + rest, out) && HopFits(s, hop, out, row.Keys, env)
    ensures ExpandRow(ExpandOf(src, s), hop.0, hop.1, row, env) != []
  {
    var binds := HopBinds(s, hop);
    PartBinds(row, binds, rest, out);
    var mid := Part1(row, binds, out);
    HopDecides(s, hop, row, mid, rest, out, env);
    ExpandRowIff(src, s, hop, row, mid, env);
  }

  /** Whether a hop passes is decided the same way at the hop and at the end. */
  lemma HopDecides(
    s: ChainStep, hop: (nat, nat), row: Row, mid: Row, rest: set<(VarId, Value)>, out: Row, env: Env)
    requires StepNamed(s) && LabelCalls(env) && env.graph.HasNode(hop.1)
    requires Bound(row, HopBinds(s, hop), mid)
    ensures Bound(mid, rest, out) ==>
      (RelPropsOk(env.graph, hop.0, s.rel.props, row, env) && AllTrue(StepChecks(s), mid, env)
       <==> HopFits(s, hop, out, row.Keys, env))
  {
    if Bound(mid, rest, out) {
      HopBindsVars(s, hop);
      var binds := HopBinds(s, hop);
      assert (s.node.v, NodeRef(hop.1)) in binds;
      StepChecksValue(s, hop.1, mid, rest, out, env);
      BoundTwice(row, binds, mid, rest, out);
      BoundRestricts(row, binds + rest, out);
    }
  }

  // ----- a whole walk -----

  lemma HeadRowIff(n: NodePattern, row: Row, id: nat, mid: Row, env: Env)
    ensures HeadRow(n, row, id, env) == Some(mid)
        <==> Bound(row, {(n.v, NodeRef(id))}, mid) && NodeOk(env.graph, id, n.labels)
             && AllTrue(NodeChecks(n), mid, env)
  {
    var binds: set<(VarId, Value)> := {(n.v, NodeRef(id))};
    assert (n.v, NodeRef(id)) in binds;
    assert VarsOf(binds) == {n.v};
    if Free1(row, n.v, NodeRef(id)) {
      var bound := BindOne(row, n.v, NodeRef(id));
      assert Bound(row, binds, bound);
      if Bound(row, binds, mid) { BoundUnique(row, binds, mid, bound); }
    }
  }

  /** A match has its head row. */
  lemma MatchHasHead(c: Chain, row: Row, w: Walk, out: Row, env: Env)
    requires |w.hops| == |c.steps| && WalkMatches(c, w, row, out, env)
    ensures HeadRow(c.head, row, w.start, env).Some?
  {
    var binds: set<(VarId, Value)> := {(c.head.v, NodeRef(w.start))};
    var rest := HopsBind(c.steps, w.hops);
    assert (c.head.v, NodeRef(w.start)) in binds;
    assert VarsOf(binds) == {c.head.v};
    PartBinds(row, binds, rest, out);
    var mid := Part1(row, binds, out);
    BoundRestricts(mid, rest, out);
    HeadRowIff(c.head, row, w.start, mid, env);
  }

  /** A walk yields `out` exactly when `out` is a match along it. */
  lemma WalkRowIff(c: Chain, row: Row, w: Walk, out: Row, env: Env)
    requires StepsNamed(c.steps) && LabelCalls(env) && env.graph.Valid()
    requires WalkOk(env.graph, c, w)
    ensures |w.hops| == |c.steps|
    ensures WalkRow(c, row, w, env) == Some(out) <==> WalkMatches(c, w, row, out, env)
  {
    var start := HeadRow(c.head, row, w.start, env);
    if start.Some? {
      HeadThenHops(c, row, w, start.value, out, env);
    } else if WalkMatches(c, w, row, out, env) {
      MatchHasHead(c, row, w, out, env);
    }
  }

  lemma HeadThenHops(c: Chain, row: Row, w: Walk, mid: Row, out: Row, env: Env)
    requires StepsNamed(c.steps) && LabelCalls(env) && env.graph.Valid() && WalkOk(env.graph, c, w)
    requires HeadRow(c.head, row, w.start, env) == Some(mid)
    ensures Follow(c.head.v, c.steps, mid, w.hops, env) == Some(out) <==> WalkMatches(c, w, row, out, env)
  {
    var binds: set<(VarId, Value)> := {(c.head.v, NodeRef(w.start))};
    var rest := HopsBind(c.steps, w.hops);
    assert (c.head.v, NodeRef(w.start)) in binds;
    HeadRowIff(c.head, row, w.start, mid, env);
    assert VarsOf(binds) == {c.head.v};
    FollowIff(c.head.v, c.steps, mid, w.start, w.hops, out, env);
    BoundTwice(row, binds, mid, rest, out);
    if Bound(mid, rest, out) { BoundRestricts(mid, rest, out); }
  }

  // ----- the rows of a chain are the rows of its walks -----

  ghost function WalkRows(c: Chain, row: Row, w: Walk, env: Env): seq<Row> {
    if |w.hops| != |c.steps| then []
    else match WalkRow(c, row, w, env) case None => [] case Some(out) => [out]
  }

  ghost function FollowRows(
    src: VarId, steps: seq<ChainStep>, row: Row, hops: seq<(nat, nat)>, env: Env): seq<Row>
  {
    if |hops| != |steps| then []
    else match Follow(src, steps, row, hops, env) case None => [] case Some(out) => [out]
  }

  lemma {:induction false} MatchStepsConcat(
    src: VarId, steps: seq<ChainStep>, a: seq<Row>, b: seq<Row>, x: Exec)
    ensures MatchSteps(src, steps, a + b, x)
         == MatchSteps(src, steps, a, x) + MatchSteps(src, steps, b, x)
    decreases |steps|
  {
    if steps != [] {
      var op, checks := ExpandOf(src, steps[0]), StepChecks(steps[0]);
      StepAllConcat(op, a, b, x);
      KeepConcat(checks, StepAll(op, a, x), StepAll(op, b, x), x.env);
      MatchStepsConcat(steps[0].node.v, steps[1..],
        Keep(checks, StepAll(op, a, x), x.env), Keep(checks, StepAll(op, b, x), x.env), x);
    }
  }

  lemma {:induction false} MatchStepsNone(src: VarId, steps: seq<ChainStep>, x: Exec)
    ensures MatchSteps(src, steps, [], x) == []
    decreases |steps|
  {
    if steps != [] { MatchStepsNone(steps[0].node.v, steps[1..], x); }
  }

  /** From a row at node `from`, the steps yield one row per list of hops. */
  lemma {:induction false} MatchStepsFollow(
    src: VarId, steps: seq<ChainStep>, row: Row, from: nat, x: Exec)
    requires src in row && row[src] == NodeRef(from)
    ensures MatchSteps(src, steps, [row], x)
         == FlatMap((h: seq<(nat, nat)>) => FollowRows(src, steps, row, h, x.env),
                    HopLists(x.env.graph, steps, from))
    decreases |steps|, 1, 0
  {
    var f := (h: seq<(nat, nat)>) => FollowRows(src, steps, row, h, x.env);
    if steps == [] {
      assert HopLists(x.env.graph, steps, from) == [[]];
      assert FlatMap(f, [[]]) == f([]) + FlatMap(f, [[]][1..]);
    } else {
      var op := ExpandOf(src, steps[0]);
      var edges := ExpandFrom(x.env.graph, from, steps[0].rel.direction, steps[0].rel.types);
      assert StepAll(op, [row], x) == ExpandRows(op, edges, row, x.env) by {
        assert StepAll(op, [row][1..], x) == [];
      }
      MatchEdgesFollow(src, steps, row, edges, x);
    }
  }

  lemma {:induction false} MatchEdgesFollow(
    src: VarId, steps: seq<ChainStep>, row: Row, edges: seq<(nat, nat)>, x: Exec)
    requires steps != []
    ensures MatchSteps(steps[0].node.v, steps[1..],
              Keep(StepChecks(steps[0]), ExpandRows(ExpandOf(src, steps[0]), edges, row, x.env), x.env), x)
         == FlatMap((h: seq<(nat, nat)>) => FollowRows(src, steps, row, h, x.env),
                    HopListsVia(x.env.graph, steps, edges))
    decreases |steps|, 0, |edges|
  {
    var f := (h: seq<(nat, nat)>) => FollowRows(src, steps, row, h, x.env);
    var op, checks, dst := ExpandOf(src, steps[0]), StepChecks(steps[0]), steps[0].node.v;
    if edges == [] {
      MatchStepsNone(dst, steps[1..], x);
    } else {
      var first := ExpandRow(op, edges[0].0, edges[0].1, row, x.env);
      var others := ExpandRows(op, edges[1..], row, x.env);
      KeepConcat(checks, first, others, x.env);
      MatchStepsConcat(dst, steps[1..], Keep(checks, first, x.env), Keep(checks, others, x.env), x);
      MatchEdgesFollow(src, steps, row, edges[1..], x);
      MatchEdgeFollow(src, steps, row, edges[0], x);
      FlatMapConcat(f, PrefixAll(edges[0], HopLists(x.env.graph, steps[1..], edges[0].1)),
                    HopListsVia(x.env.graph, steps, edges[1..]));
    }
  }

  lemma {:induction false} MatchEdgeFollow(
    src: VarId, steps: seq<ChainStep>, row: Row, edge: (nat, nat), x: Exec)
    requires steps != []
    ensures MatchSteps(steps[0].node.v, steps[1..],
              Keep(StepChecks(steps[0]), ExpandRow(ExpandOf(src, steps[0]), edge.0, edge.1, row, x.env), x.env), x)
         == FlatMap((h: seq<(nat, nat)>) => FollowRows(src, steps, row, h, x.env),
                    PrefixAll(edge, HopLists(x.env.graph, steps[1..], edge.1)))
    decreases |steps|, 0, 0
  {
    var op, checks, dst := ExpandOf(src, steps[0]), StepChecks(steps[0]), steps[0].node.v;
    var next := ExpandRow(op, edge.0, edge.1, row, x.env);
    var tails := HopLists(x.env.graph, steps[1..], edge.1);
    if next != [] && AllTrue(checks, next[0], x.env) {
      if Free1(row, dst, NodeRef(edge.1)) {
        assert Keep(checks, next, x.env) == next by { KeepAll(checks, next, x.env); }
        assert dst in next[0] && next[0][dst] == NodeRef(edge.1);
        MatchStepsFollow(dst, steps[1..], next[0], edge.1, x);
        FollowPrefixed(src, steps, row, edge, next[0], tails, x.env);
      }
    } else {
      KeepNone(checks, next, x.env);
      MatchStepsNone(dst, steps[1..], x);
      FollowStuck(src, steps, row, edge, tails, x.env);
    }
  }

  lemma {:induction false} FollowPrefixed(
    src: VarId, steps: seq<ChainStep>, row: Row, edge: (nat, nat), mid: Row,
    tails: seq<seq<(nat, nat)>>, env: Env)
    requires steps != [] && ExpandRow(ExpandOf(src, steps[0]), edge.0, edge.1, row, env) == [mid]
    requires AllTrue(StepChecks(steps[0]), mid, env)
    ensures FlatMap((h: seq<(nat, nat)>) => FollowRows(src, steps, row, h, env), PrefixAll(edge, tails))
         == FlatMap((h: seq<(nat, nat)>) => FollowRows(steps[0].node.v, steps[1..], mid, h, env), tails)
  {
    if tails != [] {
      FollowPrefixed(src, steps, row, edge, mid, tails[1..], env);
      var h := [edge] + tails[0];
      assert h[1..] == tails[0];
      assert FollowRows(src, steps, row, h, env)
          == FollowRows(steps[0].node.v, steps[1..], mid, tails[0], env);
      assert PrefixAll(edge, tails)[1..] == PrefixAll(edge, tails[1..]);
    }
  }

  lemma {:induction false} FollowStuck(
    src: VarId, steps: seq<ChainStep>, row: Row, edge: (nat, nat),
    tails: seq<seq<(nat, nat)>>, env: Env)
    requires steps != []
    requires var next := ExpandRow(ExpandOf(src, steps[0]), edge.0, edge.1, row, env);
      next == [] || !AllTrue(StepChecks(steps[0]), next[0], env)
    ensures FlatMap((h: seq<(nat, nat)>) => FollowRows(src, steps, row, h, env), PrefixAll(edge, tails)) == []
  {
    if tails != [] {
      FollowStuck(src, steps, row, edge, tails[1..], env);
      var h := [edge] + tails[0];
      assert FollowRows(src, steps, row, h, env) == [];
      assert PrefixAll(edge, tails)[1..] == PrefixAll(edge, tails[1..]);
    }
  }

  // ----- from the scan of the head on -----

  function HeadRows(n: NodePattern, row: Row, ids: seq<nat>, env: Env): seq<Row> {
    if ids == [] then []
    else
      var rest := HeadRows(n, row, ids[1..], env);
      match HeadRow(n, row, ids[0], env) case None => rest case Some(r) => [r] + rest
  }

  lemma {:induction false} ScanIsHeadRows(n: NodePattern, row: Row, ids: seq<nat>, env: Env)
    requires n.v !in row
    ensures Keep(NodeChecks(n), ScanRows(ScanOf(n), ids, row, env), env) == HeadRows(n, row, ids, env)
  {
    if ids != [] {
      ScanIsHeadRows(n, row, ids[1..], env);
      var rest := ScanRows(ScanOf(n), ids[1..], row, env);
      if NodeFound(ScanOf(n), ids[0], row, env) {
        var first := row[n.v := NodeRef(ids[0])];
        assert ([first] + rest)[1..] == rest;
      }
    }
  }

  /** A bound head is met by the one id it is bound to. */
  lemma {:induction false} BoundHeadRows(n: NodePattern, row: Row, ids: seq<nat>, env: Env)
    requires n.v in row && NoDup(ids)
    ensures HeadRows(n, row, ids, env)
         == if row[n.v].NodeRef? && row[n.v].node in ids && HeadRow(n, row, row[n.v].node, env).Some?
            then [row] else []
  {
    if ids != [] { BoundHeadRows(n, row, ids[1..], env); }
  }

  lemma MatchNodeIsHeadRows(n: NodePattern, row: Row, x: Exec)
    requires ExecValid(x)
    ensures MatchNode(n, [row], x) == HeadRows(n, row, x.nodeOrder(ScanOf(n)), x.env)
  {
    var op := ScanOf(n);
    var ids := x.nodeOrder(op);
    assert Detached(op) == op;
    assert StepAll(op, [row], x) == StepScan(op, row, x) by {
      assert StepAll(op, [row][1..], x) == [];
    }
    if n.v in row {
      BoundHeadRows(n, row, ids, x.env);
      var found := StepScan(op, row, x);
      if found != [] && AllTrue(NodeChecks(n), row, x.env) {
        KeepAll(NodeChecks(n), found, x.env);
      } else {
        KeepNone(NodeChecks(n), found, x.env);
      }
    } else {
      ScanIsHeadRows(n, row, ids, x.env);
    }
  }

  lemma {:induction false} HeadsFollow(c: Chain, row: Row, ids: seq<nat>, x: Exec)
    ensures MatchSteps(c.head.v, c.steps, HeadRows(c.head, row, ids, x.env), x)
         == FlatMap((w: Walk) => WalkRows(c, row, w, x.env), AllWalks(x.env.graph, c, ids))
  {
    var f := (w: Walk) => WalkRows(c, row, w, x.env);
    if ids == [] {
      MatchStepsNone(c.head.v, c.steps, x);
    } else {
      HeadsFollow(c, row, ids[1..], x);
      var hopLists := HopLists(x.env.graph, c.steps, ids[0]);
      FlatMapConcat(f, WalksAt(ids[0], hopLists), AllWalks(x.env.graph, c, ids[1..]));
      WalksFromHead(c, row, ids[0], hopLists, x.env);
      var start := HeadRow(c.head, row, ids[0], x.env);
      if start.Some? {
        MatchStepsConcat(c.head.v, c.steps, [start.value], HeadRows(c.head, row, ids[1..], x.env), x);
        MatchStepsFollow(c.head.v, c.steps, start.value, ids[0], x);
      }
    }
  }

  lemma {:induction false} WalksFromHead(
    c: Chain, row: Row, id: nat, hopLists: seq<seq<(nat, nat)>>, env: Env)
    ensures FlatMap((w: Walk) => WalkRows(c, row, w, env), WalksAt(id, hopLists))
         == match HeadRow(c.head, row, id, env)
            case None => []
            case Some(mid) =>
              FlatMap((h: seq<(nat, nat)>) => FollowRows(c.head.v, c.steps, mid, h, env), hopLists)
  {
    if hopLists != [] {
      WalksFromHead(c, row, id, hopLists[1..], env);
      assert WalksAt(id, hopLists)[1..] == WalksAt(id, hopLists[1..]);
    }
  }

  /** The rows of a chain are those of its walks, in the order of the scan. */
  lemma ChainRowsAreWalks(c: Chain, row: Row, x: Exec)
    requires ExecValid(x)
    ensures MatchChain(c, [row], x)
         == FlatMap((w: Walk) => WalkRows(c, row, w, x.env),
                    AllWalks(x.env.graph, c, x.nodeOrder(ScanOf(c.head))))
  {
    MatchNodeIsHeadRows(c.head, row, x);
    HeadsFollow(c, row, x.nodeOrder(ScanOf(c.head)), x);
  }

  // ----- turning a walk round -----

  function ReversedHops(w: Walk, n: nat): (hs: seq<(nat, nat)>)
    requires n <= |w.hops|
    ensures |hs| == n
    ensures forall i | 0 <= i < n ::
      hs[i] == (w.hops[|w.hops| - 1 - i].0, NodeOn(w, |w.hops| - 1 - i))
  {
    if n == 0 then []
    else
      var j := |w.hops| - n;
      ReversedHops(w, n - 1) + [(w.hops[j].0, NodeOn(w, j))]
  }

  function ReverseWalk(w: Walk): (r: Walk)
    ensures |r.hops| == |w.hops|
  {
    Walk(NodeOn(w, |w.hops|), ReversedHops(w, |w.hops|))
  }

  lemma ReversedOn(w: Walk, i: nat)
    requires i <= |w.hops|
    ensures NodeOn(ReverseWalk(w), i) == NodeOn(w, |w.hops| - i)
  {}

  lemma ReverseWalkTwice(w: Walk)
    ensures ReverseWalk(ReverseWalk(w)) == w
  {
    var k, r := |w.hops|, ReverseWalk(w);
    ReversedOn(w, k);
    forall i | 0 <= i < k ensures ReverseWalk(r).hops[i] == w.hops[i] {
      ReversedOn(w, k - 1 - i);
      assert r.hops[k - 1 - i].0 == w.hops[i].0;
    }
    assert ReverseWalk(r).hops == w.hops;
  }

  lemma {:induction false} HopsOkEach(g: Graph, steps: seq<ChainStep>, w: Walk)
    ensures HopsOk(g, steps, w.start, w.hops)
      <==> |w.hops| == |steps| && forall i | 0 <= i < |steps| ::
        HopOk(g, NodeOn(w, i), w.hops[i].0, w.hops[i].1, steps[i].rel.direction, steps[i].rel.types)
    decreases |steps|
  {
    if steps != [] && |w.hops| == |steps| {
      var rest := Walk(w.hops[0].1, w.hops[1..]);
      HopsOkEach(g, steps[1..], rest);
      forall i | 0 < i < |steps| ensures NodeOn(w, i) == NodeOn(rest, i - 1) && steps[i] == steps[1..][i - 1] {}
      if HopsOk(g, steps, w.start, w.hops) {
        forall i | 0 <= i < |steps|
          ensures HopOk(g, NodeOn(w, i), w.hops[i].0, w.hops[i].1, steps[i].rel.direction, steps[i].rel.types)
        {
          if i > 0 {
            assert HopOk(g, NodeOn(rest, i - 1), rest.hops[i - 1].0, rest.hops[i - 1].1,
                         steps[1..][i - 1].rel.direction, steps[1..][i - 1].rel.types);
          }
        }
      }
      if forall i | 0 <= i < |steps| ::
        HopOk(g, NodeOn(w, i), w.hops[i].0, w.hops[i].1, steps[i].rel.direction, steps[i].rel.types)
      {
        forall i | 0 <= i < |steps[1..]|
          ensures HopOk(g, NodeOn(rest, i), rest.hops[i].0, rest.hops[i].1,
                        steps[1..][i].rel.direction, steps[1..][i].rel.types)
        {
          assert HopOk(g, NodeOn(w, i + 1), w.hops[i + 1].0, w.hops[i + 1].1,
                       steps[i + 1].rel.direction, steps[i + 1].rel.types);
        }
      }
    }
  }

  lemma ReversedHopOk(g: Graph, c: Chain, w: Walk, i: nat)
    requires |w.hops| == |c.steps| && i < |c.steps|
    requires var j := |c.steps| - 1 - i;
      HopOk(g, NodeOn(w, j), w.hops[j].0, w.hops[j].1, c.steps[j].rel.direction, c.steps[j].rel.types)
    ensures var r, v := ReverseChain(c), ReverseWalk(w);
      HopOk(g, NodeOn(v, i), v.hops[i].0, v.hops[i].1, r.steps[i].rel.direction, r.steps[i].rel.types)
  {
    ReversedOn(w, i);
    assert ReverseChain(c).steps[i] == ReversedStep(c, i);
  }

  /** A walk along a chain, turned round, is a walk along the reversed chain. */
  lemma ReverseWalkOk(g: Graph, c: Chain, w: Walk)
    requires g.Valid() && WalkOk(g, c, w)
    ensures WalkOk(g, ReverseChain(c), ReverseWalk(w))
  {
    var r, v, k := ReverseChain(c), ReverseWalk(w), |c.steps|;
    HopsOkEach(g, c.steps, w);
    forall i | 0 <= i < k
      ensures HopOk(g, NodeOn(v, i), v.hops[i].0, v.hops[i].1, r.steps[i].rel.direction, r.steps[i].rel.types)
    {
      ReversedHopOk(g, c, w, i);
    }
    HopsOkEach(g, r.steps, v);
    WalkEndExists(g, c, w);
  }

  lemma WalkEndExists(g: Graph, c: Chain, w: Walk)
    requires g.Valid() && WalkOk(g, c, w)
    ensures g.HasNode(NodeOn(w, |w.hops|))
  {
    var k := |c.steps|;
    HopsOkEach(g, c.steps, w);
    if k > 0 {
      assert HopOk(g, NodeOn(w, k - 1), w.hops[k - 1].0, w.hops[k - 1].1,
                   c.steps[k - 1].rel.direction, c.steps[k - 1].rel.types);
    }
  }

  // ----- a match does not depend on the direction it is read in -----

  lemma {:induction false} HopsBindMember(
    steps: seq<ChainStep>, hops: seq<(nat, nat)>, b: (VarId, Value))
    requires |hops| == |steps|
    ensures b in HopsBind(steps, hops)
      <==> exists i :: 0 <= i < |steps| && b in HopBinds(steps[i], hops[i])
  {
    if steps != [] {
      HopsBindMember(steps[1..], hops[1..], b);
      if b in HopsBind(steps[1..], hops[1..]) {
        var i :| 0 <= i < |steps[1..]| && b in HopBinds(steps[1..][i], hops[1..][i]);
        assert b in HopBinds(steps[i + 1], hops[i + 1]);
      }
      if i :| 0 < i < |steps| && b in HopBinds(steps[i], hops[i]) {
        assert b in HopBinds(steps[1..][i - 1], hops[1..][i - 1]);
      }
    }
  }

  lemma NodeBindIn(c: Chain, w: Walk, i: nat)
    requires |w.hops| == |c.steps| && i <= |c.steps|
    ensures (NodeAt(c, i).v, NodeRef(NodeOn(w, i))) in WalkBinds(c, w)
  {
    if i > 0 {
      var b := (NodeAt(c, i).v, NodeRef(NodeOn(w, i)));
      assert b in HopBinds(c.steps[i - 1], w.hops[i - 1]);
      HopsBindMember(c.steps, w.hops, b);
    }
  }

  /** What hop `i` of the turned walk binds, the walk binds. */
  lemma ReversedHopBinds(c: Chain, w: Walk, i: nat, b: (VarId, Value))
    requires |w.hops| == |c.steps| && i < |c.steps|
    requires b in HopBinds(ReversedStep(c, i), ReverseWalk(w).hops[i])
    ensures b in WalkBinds(c, w)
  {
    var j := |c.steps| - 1 - i;
    NodeBindIn(c, w, j);
    if b != (NodeAt(c, j).v, NodeRef(NodeOn(w, j))) {
      assert b in HopBinds(c.steps[j], w.hops[j]);
      HopsBindMember(c.steps, w.hops, b);
    }
  }

  lemma ReverseBindsWithin(c: Chain, w: Walk)
    requires |w.hops| == |c.steps|
    ensures WalkBinds(ReverseChain(c), ReverseWalk(w)) <= WalkBinds(c, w)
  {
    var r, v, k := ReverseChain(c), ReverseWalk(w), |c.steps|;
    forall b | b in WalkBinds(r, v) ensures b in WalkBinds(c, w) {
      HopsBindMember(r.steps, v.hops, b);
      if b == (r.head.v, NodeRef(v.start)) {
        NodeBindIn(c, w, k);
      } else {
        var i :| 0 <= i < k && b in HopBinds(r.steps[i], v.hops[i]);
        ReversedHopBinds(c, w, i, b);
      }
    }
  }

  lemma ReverseBinds(c: Chain, w: Walk)
    requires |w.hops| == |c.steps|
    ensures WalkBinds(ReverseChain(c), ReverseWalk(w)) == WalkBinds(c, w)
  {
    ReverseBindsWithin(c, w);
    ReverseBindsWithin(ReverseChain(c), ReverseWalk(w));
    ReverseTwice(c);
    ReverseWalkTwice(w);
  }

  ghost predicate NodeFitsAt(c: Chain, w: Walk, out: Row, bound: set<VarId>, env: Env, i: nat)
    requires |w.hops| == |c.steps| && i <= |c.steps|
  {
    NodeFits(NodeAt(c, i), NodeOn(w, i), out, bound + Met(c, i), env)
  }

  ghost predicate RelFitsAt(c: Chain, w: Walk, out: Row, bound: set<VarId>, env: Env, i: nat)
    requires |w.hops| == |c.steps| && i < |c.steps|
  {
    RelFits(c.steps[i].rel, w.hops[i].0, out, bound + Met(c, i), env)
  }

  /** Every node and every relationship of the walk fits its pattern. */
  ghost predicate AllFit(c: Chain, w: Walk, out: Row, bound: set<VarId>, env: Env)
    requires |w.hops| == |c.steps|
  {
    (forall i | 0 <= i <= |c.steps| :: NodeFitsAt(c, w, out, bound, env, i))
    && (forall i | 0 <= i < |c.steps| :: RelFitsAt(c, w, out, bound, env, i))
  }

  /** Hops that fit one after another, with what each of them sees. */
  lemma {:induction false} HopsFitEach(
    steps: seq<ChainStep>, hops: seq<(nat, nat)>, out: Row, seen: set<VarId>, env: Env)
    requires |hops| == |steps|
    ensures HopsFit(steps, hops, out, seen, env)
      <==> forall i | 0 <= i < |steps| :: HopFits(steps[i], hops[i], out, seen + StepsVars(steps[..i]), env)
    decreases |steps|
  {
    if steps != [] {
      var seen' := seen + StepVars(steps[0]);
      var rest, after := steps[1..], hops[1..];
      HopsFitEach(rest, after, out, seen', env);
      assert seen + StepsVars(steps[..0]) == seen;
      if HopsFit(steps, hops, out, seen, env) {
        forall i | 0 <= i < |steps| ensures HopFits(steps[i], hops[i], out, seen + StepsVars(steps[..i]), env) {
          if i > 0 { SeenShifts(steps, seen, i - 1); }
        }
      }
      if forall i | 0 <= i < |steps| :: HopFits(steps[i], hops[i], out, seen + StepsVars(steps[..i]), env) {
        forall i | 0 <= i < |rest| ensures HopFits(rest[i], after[i], out, seen' + StepsVars(rest[..i]), env) {
          SeenShifts(steps, seen, i);
          assert HopFits(steps[i + 1], hops[i + 1], out, seen + StepsVars(steps[..i + 1]), env);
        }
      }
    }
  }

  lemma SeenShifts(steps: seq<ChainStep>, seen: set<VarId>, i: nat)
    requires i < |steps|
    ensures seen + StepsVars(steps[..i + 1]) == seen + StepVars(steps[0]) + StepsVars(steps[1..][..i])
  {
    assert steps[..i + 1][1..] == steps[1..][..i];
  }

  lemma {:induction false} StepsVarsConcat(a: seq<ChainStep>, b: seq<ChainStep>)
    ensures StepsVars(a + b) == StepsVars(a) + StepsVars(b)
  {
    if a == [] {
      assert a + b == b;
    } else {
      assert (a + b)[1..] == a[1..] + b;
      StepsVarsConcat(a[1..], b);
    }
  }

  /** One hop on, one step more is bound. */
  lemma MetNext(c: Chain, i: nat)
    requires i < |c.steps|
    ensures Met(c, i + 1) == Met(c, i) + StepVars(c.steps[i])
  {
    assert c.steps[..i + 1] == c.steps[..i] + [c.steps[i]];
    StepsVarsConcat(c.steps[..i], [c.steps[i]]);
    assert StepsVars([c.steps[i]]) == StepVars(c.steps[i]);
  }

  lemma HopFitsAt(c: Chain, w: Walk, out: Row, bound: set<VarId>, env: Env, i: nat)
    requires |w.hops| == |c.steps| && i < |c.steps|
    ensures HopFits(c.steps[i], w.hops[i], out, bound + {c.head.v} + StepsVars(c.steps[..i]), env)
      <==> RelFitsAt(c, w, out, bound, env, i) && NodeFitsAt(c, w, out, bound, env, i + 1)
  {
    MetNext(c, i);
    var seen := bound + {c.head.v} + StepsVars(c.steps[..i]);
    assert seen == bound + Met(c, i);
    assert seen + StepVars(c.steps[i]) == bound + Met(c, i + 1);
  }

  lemma AllFitIff(c: Chain, w: Walk, out: Row, bound: set<VarId>, env: Env)
    requires |w.hops| == |c.steps|
    ensures AllFit(c, w, out, bound, env)
      <==> NodeFits(c.head, w.start, out, bound + {c.head.v}, env)
           && HopsFit(c.steps, w.hops, out, bound + {c.head.v}, env)
  {
    HopsFitEach(c.steps, w.hops, out, bound + {c.head.v}, env);
    assert bound + Met(c, 0) == bound + {c.head.v};
    assert NodeFitsAt(c, w, out, bound, env, 0) <==> NodeFits(c.head, w.start, out, bound + {c.head.v}, env);
    forall i | 0 <= i < |c.steps|
      ensures HopFits(c.steps[i], w.hops[i], out, bound + {c.head.v} + StepsVars(c.steps[..i]), env)
        <==> RelFitsAt(c, w, out, bound, env, i) && NodeFitsAt(c, w, out, bound, env, i + 1)
    {
      HopFitsAt(c, w, out, bound, env, i);
    }
    FitsByHop(c, w, out, bound, env);
  }

  lemma FitsByHop(c: Chain, w: Walk, out: Row, bound: set<VarId>, env: Env)
    requires |w.hops| == |c.steps|
    ensures AllFit(c, w, out, bound, env)
      <==> NodeFitsAt(c, w, out, bound, env, 0)
           && forall i | 0 <= i < |c.steps| ::
                RelFitsAt(c, w, out, bound, env, i) && NodeFitsAt(c, w, out, bound, env, i + 1)
  {
    if NodeFitsAt(c, w, out, bound, env, 0)
       && forall i | 0 <= i < |c.steps| ::
            RelFitsAt(c, w, out, bound, env, i) && NodeFitsAt(c, w, out, bound, env, i + 1)
    {
      forall i | 0 <= i <= |c.steps| ensures NodeFitsAt(c, w, out, bound, env, i) {
        if i > 0 { assert RelFitsAt(c, w, out, bound, env, i - 1); }
      }
    }
  }

  lemma ReverseFits(c: Chain, w: Walk, out: Row, bound: set<VarId>, env: Env)
    requires |w.hops| == |c.steps| && AllFit(c, w, out, bound, env) && MapsSeeAlike(c, bound)
    ensures AllFit(ReverseChain(c), ReverseWalk(w), out, bound, env)
  {
    var r, v, k := ReverseChain(c), ReverseWalk(w), |c.steps|;
    forall i | 0 <= i <= k ensures NodeFitsAt(r, v, out, bound, env, i) {
      ReversedNode(c, i);
      ReversedOn(w, i);
      assert NodeFitsAt(c, w, out, bound, env, k - i) && NodeSeesAlike(c, r, bound, k - i);
      MetOwn(c, k - i);
      MetOwn(r, i);
      PropertyCheckStable(NodeAt(r, i).v, NodeAt(r, i).props, out, bound + Met(c, k - i), bound + Met(r, i), env);
    }
    forall i | 0 <= i < k ensures RelFitsAt(r, v, out, bound, env, i) {
      var j := k - 1 - i;
      assert r.steps[i] == ReversedStep(c, i);
      assert RelFitsAt(c, w, out, bound, env, j) && RelSeesAlike(c, r, bound, j);
      RelFitsStable(c.steps[j].rel, w.hops[j].0, out, bound + Met(c, j), bound + Met(r, i), env);
    }
  }

  /** A node is met when the walk stands on it. */
  lemma MetOwn(c: Chain, i: nat)
    requires i <= |c.steps|
    ensures NodeAt(c, i).v in Met(c, i)
  {
    if i > 0 { MetNext(c, i - 1); }
  }

  /** Each is the other turned round. */
  ghost predicate TurnedRound(c: Chain, r: Chain) {
    && |c.steps| == |r.steps|
    && (forall i | 0 <= i <= |c.steps| :: NodeAt(r, i) == NodeAt(c, |c.steps| - i))
    && (forall i | 0 <= i < |c.steps| :: r.steps[i].rel.props == c.steps[|c.steps| - 1 - i].rel.props)
  }

  lemma ReversedTurnsRound(c: Chain)
    ensures TurnedRound(c, ReverseChain(c))
  {
    forall i | 0 <= i <= |c.steps| ensures NodeAt(ReverseChain(c), i) == NodeAt(c, |c.steps| - i) {
      ReversedNode(c, i);
    }
  }

  lemma TurnedSeesAlike(c: Chain, r: Chain, bound: set<VarId>)
    requires TurnedRound(c, r) && SeeAlike(c, r, bound)
    ensures SeeAlike(r, c, bound)
  {
    var k := |c.steps|;
    forall i | 0 <= i <= k ensures NodeSeesAlike(r, c, bound, i) {
      assert NodeSeesAlike(c, r, bound, k - i);
    }
    forall i | 0 <= i < k ensures RelSeesAlike(r, c, bound, i) {
      assert RelSeesAlike(c, r, bound, k - 1 - i);
    }
  }

  /** Seeing alike is a matter of both ends. */
  lemma ReverseSeesAlike(c: Chain, bound: set<VarId>)
    requires MapsSeeAlike(c, bound)
    ensures MapsSeeAlike(ReverseChain(c), bound)
  {
    ReverseTwice(c);
    ReversedTurnsRound(c);
    TurnedSeesAlike(c, ReverseChain(c), bound);
  }

  /** A match does not depend on the end it is walked from. */
  lemma ReverseMatches(c: Chain, w: Walk, row: Row, out: Row, env: Env)
    requires |w.hops| == |c.steps| && MapsSeeAlike(c, row.Keys)
    ensures WalkMatches(c, w, row, out, env)
      <==> WalkMatches(ReverseChain(c), ReverseWalk(w), row, out, env)
  {
    var r, v := ReverseChain(c), ReverseWalk(w);
    ReverseBinds(c, w);
    AllFitIff(c, w, out, row.Keys, env);
    AllFitIff(r, v, out, row.Keys, env);
    if AllFit(c, w, out, row.Keys, env) { ReverseFits(c, w, out, row.Keys, env); }
    if AllFit(r, v, out, row.Keys, env) {
      ReverseSeesAlike(c, row.Keys);
      ReverseFits(r, v, out, row.Keys, env);
      ReverseTwice(c);
      ReverseWalkTwice(w);
    }
  }

  // ----- main results -----

  lemma ReverseNamed(c: Chain)
    requires Named(c)
    ensures Named(ReverseChain(c))
  {
    var r, k := ReverseChain(c), |c.steps|;
    if k > 0 { assert StepNamed(c.steps[k - 1]); }
    forall i | 0 <= i < k
      ensures StepNamed(r.steps[i]) && r.steps[i].rel.v != Some(NodeAt(r, i).v)
    {
      ReversedStepNamed(c, i);
    }
  }

  lemma ReversedStepNamed(c: Chain, i: nat)
    requires Named(c) && i < |c.steps|
    ensures StepNamed(ReverseChain(c).steps[i])
    ensures ReverseChain(c).steps[i].rel.v != Some(NodeAt(ReverseChain(c), i).v)
  {
    var r, j := ReverseChain(c), |c.steps| - 1 - i;
    ReversedNode(c, i);
    assert r.steps[i] == ReversedStep(c, i);
    assert StepNamed(c.steps[j]);
    if j > 0 { assert StepNamed(c.steps[j - 1]); }
    assert c.steps[j].rel.v != Some(NodeAt(c, j).v);
  }

  ghost function ReverseAll(ws: seq<Walk>): seq<Walk> {
    if ws == [] then [] else [ReverseWalk(ws[0])] + ReverseAll(ws[1..])
  }

  lemma {:induction false} ReverseAllMember(ws: seq<Walk>)
    ensures |ReverseAll(ws)| == |ws|
    ensures forall i | 0 <= i < |ws| :: ReverseAll(ws)[i] == ReverseWalk(ws[i])
  {
    if ws != [] { ReverseAllMember(ws[1..]); }
  }

  lemma ReverseAllNoDup(ws: seq<Walk>)
    requires NoDup(ws)
    ensures NoDup(ReverseAll(ws))
    ensures forall v :: v in ReverseAll(ws) <==> ReverseWalk(v) in ws
  {
    ReverseAllMember(ws);
    forall i, j | 0 <= i < j < |ws| ensures ReverseAll(ws)[i] != ReverseAll(ws)[j] {
      ReverseWalkTwice(ws[i]);
      ReverseWalkTwice(ws[j]);
    }
    forall v ensures v in ReverseAll(ws) <==> ReverseWalk(v) in ws {
      ReverseWalkTwice(v);
      if i :| 0 <= i < |ws| && ReverseAll(ws)[i] == v { ReverseWalkTwice(ws[i]); }
      if i :| 0 <= i < |ws| && ws[i] == ReverseWalk(v) { assert ReverseAll(ws)[i] == v; }
    }
  }

  /** The walks of the reversed chain are the walks of the chain, turned. */
  lemma ReversedWalks(g: Graph, c: Chain, starts: seq<nat>, ends: seq<nat>)
    requires g.Valid() && NoDup(starts) && NoDup(ends)
    requires forall id :: id in starts <==> g.HasNode(id)
    requires forall id :: id in ends <==> g.HasNode(id)
    ensures Perm(AllWalks(g, ReverseChain(c), ends), ReverseAll(AllWalks(g, c, starts)))
  {
    var forwards, backwards := AllWalks(g, c, starts), AllWalks(g, ReverseChain(c), ends);
    AllWalksSpec(g, c, starts);
    AllWalksSpec(g, ReverseChain(c), ends);
    ReverseAllNoDup(forwards);
    forall v ensures v in backwards <==> v in ReverseAll(forwards) {
      if v in backwards {
        ReverseWalkOk(g, ReverseChain(c), v);
        ReverseTwice(c);
      }
      if ReverseWalk(v) in forwards {
        ReverseWalkOk(g, c, ReverseWalk(v));
        ReverseWalkTwice(v);
      }
    }
    NoDupPerm(backwards, ReverseAll(forwards));
  }

  lemma {:induction false} ReverseAllRows(c: Chain, row: Row, ws: seq<Walk>, env: Env)
    requires Named(c) && Named(ReverseChain(c)) && MapsSeeAlike(c, row.Keys)
    requires LabelCalls(env) && env.graph.Valid()
    requires forall w | w in ws :: WalkOk(env.graph, c, w)
    ensures FlatMap((w: Walk) => WalkRows(ReverseChain(c), row, w, env), ReverseAll(ws))
         == FlatMap((w: Walk) => WalkRows(c, row, w, env), ws)
  {
    if ws != [] {
      ReverseAllRows(c, row, ws[1..], env);
      SameRowReversed(c, row, ws[0], env);
    }
  }

  lemma SameRowReversed(c: Chain, row: Row, w: Walk, env: Env)
    requires Named(c) && Named(ReverseChain(c)) && MapsSeeAlike(c, row.Keys)
    requires LabelCalls(env) && env.graph.Valid() && WalkOk(env.graph, c, w)
    ensures WalkRows(ReverseChain(c), row, ReverseWalk(w), env) == WalkRows(c, row, w, env)
  {
    var r, v := ReverseChain(c), ReverseWalk(w);
    ReverseWalkOk(env.graph, c, w);
    forall out
      ensures |w.hops| == |c.steps|
      ensures WalkRow(c, row, w, env) == Some(out) <==> WalkRow(r, row, v, env) == Some(out)
    {
      WalkRowIff(c, row, w, out, env);
      WalkRowIff(r, row, v, out, env);
      ReverseMatches(c, w, row, out, env);
    }
  }

  lemma {:induction false} MatchChainEach(c: Chain, rows: seq<Row>, x: Exec)
    ensures MatchChain(c, rows, x) == FlatMap((row: Row) => MatchChain(c, [row], x), rows)
  {
    if rows == [] {
      MatchStepsNone(c.head.v, c.steps, x);
    } else {
      var first, rest := [rows[0]], rows[1..];
      assert rows == first + rest;
      StepAllConcat(ScanOf(c.head), first, rest, x);
      KeepConcat(NodeChecks(c.head), StepAll(ScanOf(c.head), first, x), StepAll(ScanOf(c.head), rest, x), x.env);
      MatchStepsConcat(c.head.v, c.steps, MatchNode(c.head, first, x), MatchNode(c.head, rest, x), x);
      MatchChainEach(c, rest, x);
    }
  }

  lemma ReversedRow(c: Chain, row: Row, x: Exec)
    requires ExecValid(x) && ChainWellFormed(c, row.Keys)
    ensures Perm(MatchChain(ReverseChain(c), [row], x), MatchChain(c, [row], x))
  {
    var g, r := x.env.graph, ReverseChain(c);
    var starts, ends := x.nodeOrder(ScanOf(c.head)), x.nodeOrder(ScanOf(r.head));
    ReverseNamed(c);
    ChainRowsAreWalks(c, row, x);
    ChainRowsAreWalks(r, row, x);
    AllWalksSpec(g, c, starts);
    ReversedWalks(g, c, starts, ends);
    FlatMapPerm((w: Walk) => WalkRows(r, row, w, x.env), AllWalks(g, r, ends), ReverseAll(AllWalks(g, c, starts)));
    ReverseAllRows(c, row, AllWalks(g, c, starts), x.env);
  }

  /** Walked from its tail, a chain matches the same rows, each as often. */
  lemma SameRowsFromEitherEnd(c: Chain, rows: seq<Row>, x: Exec)
    requires ExecValid(x)
    requires forall row | row in rows :: ChainWellFormed(c, row.Keys)
    ensures Perm(MatchChain(ReverseChain(c), rows, x), MatchChain(c, rows, x))
  {
    MatchChainEach(c, rows, x);
    MatchChainEach(ReverseChain(c), rows, x);
    forall row | row in rows { ReversedRow(c, row, x); }
    FlatMapPermEach((row: Row) => MatchChain(ReverseChain(c), [row], x),
                    (row: Row) => MatchChain(c, [row], x), rows);
  }

  // ====================
  // Which chains may be walked from their tail: those whose inline maps see the same
  // variables bound from either end, and, where values are null without their variables,
  // no others that match anything.

  // ----- a condition a caller can read off the pattern -----

  /** The relationship's own variable, where nothing else has it. */
  ghost function OwnOnly(c: Chain, i: nat): set<VarId>
    requires i < |c.steps|
  {
    if (forall j | 0 <= j <= |c.steps| :: c.steps[i].rel.v != Some(NodeAt(c, j).v))
       && (forall j | 0 <= j < |c.steps| && j != i :: c.steps[j].rel.v != c.steps[i].rel.v)
    then OptionSet(c.steps[i].rel.v) else {}
  }

  /** No inline map reads a variable the chain itself binds, but at most the
      node or relationship it belongs to. */
  ghost predicate MapsClosed(c: Chain, bound: set<VarId>) {
    (forall i | 0 <= i <= |c.steps| :: NodeMapClosed(c, bound, i))
    && (forall i | 0 <= i < |c.steps| :: RelMapClosed(c, bound, i))
  }

  ghost predicate NodeMapClosed(c: Chain, bound: set<VarId>, i: nat)
    requires i <= |c.steps|
  {
    ClosedProps(NodeAt(c, i).props, ChainVars(c) - bound - {NodeAt(c, i).v})
  }

  ghost predicate RelMapClosed(c: Chain, bound: set<VarId>, i: nat)
    requires i < |c.steps|
  {
    ClosedProps(c.steps[i].rel.props, ChainVars(c) - bound - OwnOnly(c, i))
  }

  ghost predicate ClosedProps(props: Option<Expr>, vars: set<VarId>) {
    props.Some? ==> Free(props.value) !! vars
  }

  ghost predicate NamesNode(c: Chain, v: VarId) { exists j | 0 <= j <= |c.steps| :: NodeAt(c, j).v == v }

  ghost predicate NamesRel(c: Chain, below: nat, v: VarId)
    requires below <= |c.steps|
  {
    exists j | 0 <= j < below :: c.steps[j].rel.v == Some(v)
  }

  lemma MetMember(c: Chain, i: nat, v: VarId)
    requires i <= |c.steps| && v in Met(c, i)
    ensures v in ChainVars(c)
    ensures NamesNode(c, v) || NamesRel(c, i, v)
  {
    assert c.steps == c.steps[..i] + c.steps[i..];
    StepsVarsConcat(c.steps[..i], c.steps[i..]);
    StepsVarsMember(c.steps[..i], v);
    if v == c.head.v {
      assert v == NodeAt(c, 0).v;
    } else {
      var j :| 0 <= j < i && v in StepVars(c.steps[..i][j]);
      assert c.steps[..i][j] == c.steps[j];
      if c.steps[j].rel.v != Some(v) { assert v == NodeAt(c, j + 1).v; }
    }
  }

  lemma MetWithin(c: Chain, i: nat)
    requires i <= |c.steps|
    ensures Met(c, i) <= ChainVars(c)
  {
    forall v | v in Met(c, i) ensures v in ChainVars(c) { MetMember(c, i, v); }
  }

  lemma NotMet(c: Chain, i: nat, v: VarId)
    requires i <= |c.steps| && !NamesNode(c, v) && !NamesRel(c, i, v)
    ensures v !in Met(c, i)
  {
    if v in Met(c, i) { MetMember(c, i, v); }
  }

  /** A variable only its relationship has is not met before it. */
  lemma OwnUnmet(c: Chain, r: Chain, i: nat, u: VarId)
    requires TurnedRound(c, r) && i < |c.steps| && u in OwnOnly(c, i)
    requires forall j | 0 <= j < |c.steps| :: r.steps[j].rel.v == c.steps[|c.steps| - 1 - j].rel.v
    ensures u !in Met(c, i) && u !in Met(r, |c.steps| - 1 - i)
  {
    var k := |c.steps|;
    forall j | 0 <= j <= k ensures NodeAt(r, j).v != u { assert NodeAt(c, k - j).v != u; }
    forall j | 0 <= j < k - 1 - i ensures r.steps[j].rel.v != Some(u) {
      assert c.steps[k - 1 - j].rel.v != Some(u);
    }
    NotMet(c, i, u);
    NotMet(r, k - 1 - i, u);
  }

  /** A map that reads no unset variable but its own sees alike where its own
      is met on both sides or on none. */
  lemma ClosedSeesAlike(
    props: Option<Expr>, vars: set<VarId>, own: set<VarId>, bound: set<VarId>, a: set<VarId>, b: set<VarId>)
    requires ClosedProps(props, vars - bound - own) && a <= vars && b <= vars
    requires forall u | u in own :: u in a <==> u in b
    ensures SeesAlike(props, bound + a, bound + b)
  {
    if props.Some? {
      forall u | u in Free(props.value) ensures u in bound + a <==> u in bound + b {
        assert u !in vars - bound - own;
      }
    }
  }

  lemma ClosedNodeSees(c: Chain, r: Chain, bound: set<VarId>, i: nat)
    requires i <= |c.steps| == |r.steps| && NodeAt(r, |c.steps| - i) == NodeAt(c, i)
    requires NodeMapClosed(c, bound, i) && ChainVars(r) == ChainVars(c)
    ensures NodeSeesAlike(c, r, bound, i)
  {
    var n, a, b := NodeAt(c, i), Met(c, i), Met(r, |c.steps| - i);
    MetOwn(c, i);
    MetOwn(r, |c.steps| - i);
    MetWithin(c, i);
    MetWithin(r, |c.steps| - i);
    ClosedSeesAlike(n.props, ChainVars(c), {n.v}, bound, a, b);
  }

  lemma ClosedRelSees(c: Chain, r: Chain, bound: set<VarId>, i: nat)
    requires i < |c.steps| && RelMapClosed(c, bound, i)
    requires TurnedRound(c, r) && ChainVars(r) == ChainVars(c)
    requires forall j | 0 <= j < |c.steps| :: r.steps[j].rel.v == c.steps[|c.steps| - 1 - j].rel.v
    ensures RelSeesAlike(c, r, bound, i)
  {
    var k := |c.steps|;
    MetWithin(c, i);
    MetWithin(r, k - 1 - i);
    forall u | u in OwnOnly(c, i) ensures u !in Met(c, i) && u !in Met(r, k - 1 - i) {
      OwnUnmet(c, r, i, u);
    }
    ClosedSeesAlike(c.steps[i].rel.props, ChainVars(c), OwnOnly(c, i), bound, Met(c, i), Met(r, k - 1 - i));
  }

  /** Closed maps see alike. */
  lemma ClosedMapsSeeAlike(c: Chain, bound: set<VarId>)
    requires MapsClosed(c, bound)
    ensures MapsSeeAlike(c, bound)
  {
    var r := ReverseChain(c);
    ReverseVars(c);
    ReversedTurnsRound(c);
    forall i | 0 <= i <= |c.steps| ensures NodeSeesAlike(c, r, bound, i) {
      assert NodeMapClosed(c, bound, i);
      assert NodeAt(r, |c.steps| - i) == NodeAt(c, |c.steps| - (|c.steps| - i));
      ClosedNodeSees(c, r, bound, i);
    }
    forall i | 0 <= i < |c.steps| ensures RelSeesAlike(c, r, bound, i) {
      assert RelMapClosed(c, bound, i);
      ClosedRelSees(c, r, bound, i);
    }
  }

  /** The more is bound before a chain, the less it can read too early. */
  lemma SeeAlikeMore(c: Chain, bound: set<VarId>, more: set<VarId>)
    requires MapsSeeAlike(c, bound) && bound <= more
    ensures MapsSeeAlike(c, more)
  {
    var r := ReverseChain(c);
    forall i | 0 <= i <= |c.steps| ensures NodeSeesAlike(c, r, more, i) {
      assert NodeSeesAlike(c, r, bound, i);
      SeesAlikeMore(NodeAt(c, i).props, bound, Met(c, i), Met(r, |c.steps| - i), more);
    }
    forall i | 0 <= i < |c.steps| ensures RelSeesAlike(c, r, more, i) {
      assert RelSeesAlike(c, r, bound, i);
      SeesAlikeMore(c.steps[i].rel.props, bound, Met(c, i), Met(r, |c.steps| - 1 - i), more);
    }
  }

  lemma SeesAlikeMore(
    props: Option<Expr>, bound: set<VarId>, a: set<VarId>, b: set<VarId>, more: set<VarId>)
    requires SeesAlike(props, bound + a, bound + b) && bound <= more
    ensures SeesAlike(props, more + a, more + b)
  {
    if props.Some? {
      var free := Free(props.value);
      forall u | u in free ensures u in more + a <==> u in more + b {
        assert u in free * (bound + a) <==> u in free * (bound + b);
      }
    }
  }

  // ----- values that are null without a variable -----

  /** Operators that give null when an operand is null. */
  predicate StrictOp(op: BinaryOp) {
    op.Xor? || op.Eq? || op.Ne? || op.Lt? || op.Gt? || op.Le? || op.Ge?
    || op.StartsWithOp? || op.EndsWithOp? || op.ContainsOp?
  }

  /** The expression is null on every row that does not bind `u`. */
  predicate NullWithout(e: Expr, u: VarId) {
    match e
    case Variable(v) => v == u
    case Property(base, _) => NullWithout(base, u)
    case Unary(_, arg) => NullWithout(arg, u)
    case Binary(lhs, op, rhs) => StrictOp(op) && (NullWithout(lhs, u) || NullWithout(rhs, u))
    case Index(base, index) => NullWithout(base, u) || NullWithout(index, u)
    case _ => false
  }

  lemma {:induction false} NullWithoutIsNull(e: Expr, u: VarId, row: Row, env: Env)
    requires NullWithout(e, u) && u !in row
    ensures Eval(e, row, env).Null?
  {
    match e
    case Variable(_) =>
    case Property(base, _) => NullWithoutIsNull(base, u, row, env);
    case Unary(_, arg) => NullWithoutIsNull(arg, u, row, env);
    case Binary(lhs, op, rhs) =>
      if NullWithout(lhs, u) { NullWithoutIsNull(lhs, u, row, env); }
      else { NullWithoutIsNull(rhs, u, row, env); }
    case Index(base, index) =>
      if NullWithout(base, u) { NullWithoutIsNull(base, u, row, env); }
      else { NullWithoutIsNull(index, u, row, env); }
  }

  // ----- a map with a null entry fits nothing -----

  /** Entry `i` reads `u`, and is null without it. */
  ghost predicate ReadsAt(props: Option<Expr>, i: nat, u: VarId) {
    props.Some? && props.value.MapOf? && i < |props.value.entries|
    && NullWithout(props.value.entries[i].value, u)
  }

  /** Some entry is null where only `seen` is bound. */
  ghost predicate ReadsTooEarly(props: Option<Expr>, seen: set<VarId>) {
    exists i: nat, u: VarId :: ReadsAt(props, i, u) && u !in seen
  }

  lemma {:induction false} EntryCheckAt(v: VarId, entries: seq<Entry>, i: nat)
    requires i < |entries|
    ensures Binary(Property(Variable(v), entries[i].key), Eq, entries[i].value)
            in EntryChecks(v, entries)
  {
    if i > 0 { EntryCheckAt(v, entries[1..], i - 1); }
  }

  lemma NullMapFails(v: VarId, props: Option<Expr>, row: Row, env: Env)
    requires ReadsTooEarly(props, row.Keys)
    ensures !AllTrue(PropertyCheck(v, props), row, env)
  {
    var i: nat, u: VarId :| ReadsAt(props, i, u) && u !in row.Keys;
    var entries := props.value.entries;
    NullWithoutIsNull(entries[i].value, u, row, env);
    EntryCheckAt(v, entries, i);
    var check := Binary(Property(Variable(v), entries[i].key), Eq, entries[i].value);
    assert !Eval(check, row, env).Truthy();
    AndAllDecides(EntryChecks(v, entries), row, env);
  }

  /** A map literal names a key once, as the analyzer checks. */
  ghost predicate KeysOnce(props: Option<Expr>) {
    props.Some? && props.value.MapOf? ==>
      forall i, j | 0 <= i < j < |props.value.entries| :: props.value.entries[i].key != props.value.entries[j].key
  }

  /** A property set to null is removed: none is stored. */
  ghost predicate NoNullStored(g: Graph) {
    forall r: nat, k | g.HasRel(r) && k in g.rels[r].value.props :: !g.rels[r].value.props[k].Null?
  }

  lemma {:induction false} EntryValue(entries: seq<Entry>, i: nat, row: Row, env: Env)
    requires i < |entries|
    requires forall j | i < j < |entries| :: entries[i].key != entries[j].key
    ensures entries[i].key in EvalEntries(entries, row, env)
    ensures EvalEntries(entries, row, env)[entries[i].key] == Eval(entries[i].value, row, env)
  {
    if i > 0 {
      EntryValue(entries[1..], i - 1, row, env);
    } else {
      EntryKeys(entries[1..], entries[0].key, row, env);
    }
  }

  lemma {:induction false} EntryKeys(entries: seq<Entry>, key: string, row: Row, env: Env)
    requires forall j | 0 <= j < |entries| :: entries[j].key != key
    ensures key !in EvalEntries(entries, row, env)
  {
    if entries != [] { EntryKeys(entries[1..], key, row, env); }
  }

  lemma NullRelMapFails(g: Graph, r: nat, props: Option<Expr>, row: Row, env: Env)
    requires ReadsTooEarly(props, row.Keys) && KeysOnce(props) && NoNullStored(g)
    ensures !RelPropsOk(g, r, props, row, env)
  {
    var i: nat, u: VarId :| ReadsAt(props, i, u) && u !in row.Keys;
    var entries := props.value.entries;
    NullWithoutIsNull(entries[i].value, u, row, env);
    EntryValue(entries, i, row, env);
    var wanted := Eval(props.value, row, env);
    assert wanted.Map? && entries[i].key in wanted.entries && wanted.entries[entries[i].key].Null?;
  }

  // ----- a chain that reads too early matches nothing -----

  ghost predicate NodeReadsEarly(c: Chain, bound: set<VarId>, i: nat)
    requires i <= |c.steps|
  {
    ReadsTooEarly(NodeAt(c, i).props, bound + Met(c, i))
  }

  ghost predicate RelReadsEarly(c: Chain, bound: set<VarId>, i: nat)
    requires i < |c.steps|
  {
    ReadsTooEarly(c.steps[i].rel.props, bound + Met(c, i))
  }

  /** Walked from its head, the chain reads a variable it has not bound yet. */
  ghost predicate ReadsEarly(c: Chain, bound: set<VarId>) {
    (exists i | 0 <= i <= |c.steps| :: NodeReadsEarly(c, bound, i))
    || (exists i | 0 <= i < |c.steps| :: RelReadsEarly(c, bound, i))
  }

  ghost predicate RelKeysOnce(steps: seq<ChainStep>) {
    forall i | 0 <= i < |steps| :: KeysOnce(steps[i].rel.props)
  }

  /** Following stops at the step that reads too early. */
  lemma {:induction false} FollowStops(
    src: VarId, steps: seq<ChainStep>, row: Row, hops: seq<(nat, nat)>, i: nat, env: Env)
    requires |hops| == |steps| && i < |steps| && RelKeysOnce(steps) && NoNullStored(env.graph)
    requires ReadsTooEarly(steps[i].rel.props, row.Keys + StepsVars(steps[..i]))
          || ReadsTooEarly(steps[i].node.props, row.Keys + StepsVars(steps[..i + 1]))
    ensures Follow(src, steps, row, hops, env).None?
    decreases |steps|
  {
    var s := steps[0];
    var next := ExpandRow(ExpandOf(src, s), hops[0].0, hops[0].1, row, env);
    assert KeysOnce(s.rel.props);
    if next != [] {
      var mid := next[0];
      assert mid.Keys == row.Keys + StepVars(s);
      if i == 0 {
        StopsHere(src, steps, row, hops, mid, env);
      } else {
        assert steps[..i][1..] == steps[1..][..i - 1] && steps[..i + 1][1..] == steps[1..][..i];
        assert row.Keys + StepsVars(steps[..i]) == mid.Keys + StepsVars(steps[1..][..i - 1]);
        assert row.Keys + StepsVars(steps[..i + 1]) == mid.Keys + StepsVars(steps[1..][..i]);
        assert RelKeysOnce(steps[1..]) by {
          forall j | 0 <= j < |steps[1..]| ensures KeysOnce(steps[1..][j].rel.props) {
            assert KeysOnce(steps[j + 1].rel.props);
          }
        }
        FollowStops(s.node.v, steps[1..], mid, hops[1..], i - 1, env);
      }
    }
  }

  lemma StopsHere(
    src: VarId, steps: seq<ChainStep>, row: Row, hops: seq<(nat, nat)>, mid: Row, env: Env)
    requires |hops| == |steps| && steps != [] && KeysOnce(steps[0].rel.props) && NoNullStored(env.graph)
    requires ReadsTooEarly(steps[0].rel.props, row.Keys + StepsVars(steps[..0]))
          || ReadsTooEarly(steps[0].node.props, row.Keys + StepsVars(steps[..1]))
    requires ExpandRow(ExpandOf(src, steps[0]), hops[0].0, hops[0].1, row, env) == [mid]
    requires mid.Keys == row.Keys + StepVars(steps[0])
    ensures Follow(src, steps, row, hops, env).None?
  {
    var s := steps[0];
    assert row.Keys + StepsVars(steps[..0]) == row.Keys;
    if ReadsTooEarly(s.rel.props, row.Keys) {
      NullRelMapFails(env.graph, hops[0].0, s.rel.props, row, env);
    } else {
      assert steps[..1] == [s] && [s][1..] == [];
      assert row.Keys + StepsVars(steps[..1]) == mid.Keys;
      NullMapFails(s.node.v, s.node.props, mid, env);
      var labels, props := LabelCheck(s.node.v, s.node.labels), PropertyCheck(s.node.v, s.node.props);
      assert forall e | e in props :: e in labels + props;
    }
  }

  lemma EarlyWalkHasNoRow(c: Chain, row: Row, w: Walk, env: Env)
    requires ReadsEarly(c, row.Keys) && RelKeysOnce(c.steps) && NoNullStored(env.graph)
    requires |w.hops| == |c.steps|
    ensures WalkRow(c, row, w, env).None?
  {
    var start := HeadRow(c.head, row, w.start, env);
    if start.Some? {
      if i :| 0 <= i <= |c.steps| && NodeReadsEarly(c, row.Keys, i) {
        EarlyNodeStops(c, row, w, start.value, i, env);
      } else {
        var j :| 0 <= j < |c.steps| && RelReadsEarly(c, row.Keys, j);
        assert row.Keys + Met(c, j) == start.value.Keys + StepsVars(c.steps[..j]);
        FollowStops(c.head.v, c.steps, start.value, w.hops, j, env);
      }
    }
  }

  lemma EarlyNodeStops(c: Chain, row: Row, w: Walk, mid: Row, i: nat, env: Env)
    requires |w.hops| == |c.steps| && RelKeysOnce(c.steps) && NoNullStored(env.graph)
    requires HeadRow(c.head, row, w.start, env) == Some(mid)
    requires i <= |c.steps| && NodeReadsEarly(c, row.Keys, i)
    ensures Follow(c.head.v, c.steps, mid, w.hops, env).None?
  {
    assert row.Keys + Met(c, i) == mid.Keys + StepsVars(c.steps[..i]);
    if i == 0 {
      assert mid.Keys + StepsVars(c.steps[..0]) == mid.Keys;
      NullMapFails(c.head.v, c.head.props, mid, env);
    } else {
      assert c.steps[..i - 1 + 1] == c.steps[..i];
      FollowStops(c.head.v, c.steps, mid, w.hops, i - 1, env);
    }
  }

  lemma {:induction false} NoWalkRows(c: Chain, row: Row, ws: seq<Walk>, env: Env)
    requires forall w: Walk | |w.hops| == |c.steps| :: WalkRow(c, row, w, env).None?
    ensures FlatMap((w: Walk) => WalkRows(c, row, w, env), ws) == []
  {
    if ws != [] { NoWalkRows(c, row, ws[1..], env); }
  }

  /** A chain that reads too early matches nothing. */
  lemma EarlyMatchesNothing(c: Chain, row: Row, x: Exec)
    requires ExecValid(x) && ReadsEarly(c, row.Keys) && RelKeysOnce(c.steps) && NoNullStored(x.env.graph)
    ensures MatchChain(c, [row], x) == []
  {
    ChainRowsAreWalks(c, row, x);
    forall w: Walk | |w.hops| == |c.steps| ensures WalkRow(c, row, w, x.env).None? {
      EarlyWalkHasNoRow(c, row, w, x.env);
    }
    NoWalkRows(c, row, AllWalks(x.env.graph, c, x.nodeOrder(ScanOf(c.head))), x.env);
  }

  // ----- the exact condition -----

  /** Each unset variable the map reads makes an entry null where it is not
      bound. */
  ghost predicate StrictMap(props: Option<Expr>, unset: set<VarId>) {
    props.Some? ==> forall u | u in Free(props.value) * unset :: exists i: nat :: ReadsAt(props, i, u)
  }

  /** Without a variable it reads, every inline map has a null entry. */
  ghost predicate StrictMaps(c: Chain, bound: set<VarId>) {
    var unset := ChainVars(c) - bound;
    && (forall i | 0 <= i <= |c.steps| :: StrictMap(NodeAt(c, i).props, unset))
    && (forall i | 0 <= i < |c.steps| :: StrictMap(c.steps[i].rel.props, unset))
  }

  lemma UnlikeReadsEarly(props: Option<Expr>, unset: set<VarId>, a: set<VarId>, b: set<VarId>)
    requires StrictMap(props, unset) && !SeesAlike(props, a, b)
    requires forall u | u in a || u in b :: u in a * b || u in unset
    ensures ReadsTooEarly(props, a) || ReadsTooEarly(props, b)
  {
    var free := Free(props.value);
    var u :| u in free && !(u in a <==> u in b);
    assert u in free * unset;
    var i: nat :| ReadsAt(props, i, u);
  }

  lemma MetInChain(c: Chain, bound: set<VarId>, i: nat, r: Chain, j: nat)
    requires i <= |c.steps| && j <= |r.steps| && ChainVars(r) == ChainVars(c)
    ensures forall u | u in bound + Met(c, i) || u in bound + Met(r, j) ::
      u in (bound + Met(c, i)) * (bound + Met(r, j)) || u in ChainVars(c) - bound
  {
    MetWithin(c, i);
    MetWithin(r, j);
  }

  /** Strict maps that do not see alike are read too early from one end. */
  lemma UnlikeIsEarly(c: Chain, r: Chain, bound: set<VarId>)
    requires TurnedRound(c, r) && ChainVars(r) == ChainVars(c)
    requires StrictMaps(c, bound) && !SeeAlike(c, r, bound)
    ensures ReadsEarly(c, bound) || ReadsEarly(r, bound)
  {
    var k, unset := |c.steps|, ChainVars(c) - bound;
    if i :| 0 <= i <= k && !NodeSeesAlike(c, r, bound, i) {
      MetInChain(c, bound, i, r, k - i);
      UnlikeReadsEarly(NodeAt(c, i).props, unset, bound + Met(c, i), bound + Met(r, k - i));
      if ReadsTooEarly(NodeAt(c, i).props, bound + Met(c, i)) {
        assert NodeReadsEarly(c, bound, i);
      } else {
        assert NodeAt(r, k - i) == NodeAt(c, i);
        assert NodeReadsEarly(r, bound, k - i);
      }
    } else {
      var i :| 0 <= i < k && !RelSeesAlike(c, r, bound, i);
      MetInChain(c, bound, i, r, k - 1 - i);
      UnlikeReadsEarly(c.steps[i].rel.props, unset, bound + Met(c, i), bound + Met(r, k - 1 - i));
      if ReadsTooEarly(c.steps[i].rel.props, bound + Met(c, i)) {
        assert RelReadsEarly(c, bound, i);
      } else {
        assert RelReadsEarly(r, bound, k - 1 - i);
      }
    }
  }

  lemma ReversedKeysOnce(c: Chain)
    requires RelKeysOnce(c.steps)
    ensures RelKeysOnce(ReverseChain(c).steps)
  {
    forall i | 0 <= i < |c.steps| ensures KeysOnce(ReverseChain(c).steps[i].rel.props) {
      assert ReverseChain(c).steps[i] == ReversedStep(c, i);
      assert KeysOnce(c.steps[|c.steps| - 1 - i].rel.props);
    }
  }

  /** A chain whose reversed walk reads a variable it has not bound yet, in
      any node's or relationship's map, keeps its rows exactly when it has
      none. */
  lemma EarlyTailIff(c: Chain, row: Row, x: Exec)
    requires ExecValid(x) && NoNullStored(x.env.graph) && RelKeysOnce(c.steps)
    requires ReadsEarly(ReverseChain(c), row.Keys)
    ensures Perm(MatchChain(ReverseChain(c), [row], x), MatchChain(c, [row], x))
      <==> MatchChain(c, [row], x) == []
  {
    ReversedKeysOnce(c);
    EarlyMatchesNothing(ReverseChain(c), row, x);
    if Perm([], MatchChain(c, [row], x)) { PermLength([], MatchChain(c, [row], x)); }
  }

  /** Where inline maps are null without what they read, a chain matches the
      same rows from either end exactly when its maps see alike or it matches
      nothing from both. */
  lemma EitherEndIff(c: Chain, row: Row, x: Exec)
    requires ExecValid(x) && NoNullStored(x.env.graph) && Named(c)
    requires RelKeysOnce(c.steps) && StrictMaps(c, row.Keys)
    ensures Perm(MatchChain(ReverseChain(c), [row], x), MatchChain(c, [row], x))
      <==> MapsSeeAlike(c, row.Keys)
           || (MatchChain(c, [row], x) == [] && MatchChain(ReverseChain(c), [row], x) == [])
  {
    var r := ReverseChain(c);
    if MapsSeeAlike(c, row.Keys) {
      ReversedRow(c, row, x);
    } else {
      ReverseVars(c);
      ReversedTurnsRound(c);
      UnlikeIsEarly(c, r, row.Keys);
      ReversedKeysOnce(c);
      if ReadsEarly(c, row.Keys) {
        EarlyMatchesNothing(c, row, x);
      } else {
        EarlyMatchesNothing(r, row, x);
      }
      PermNothing(MatchChain(r, [row], x), MatchChain(c, [row], x));
    }
  }

  lemma PermNothing<T>(a: seq<T>, b: seq<T>)
    requires a == [] || b == []
    ensures Perm(a, b) <==> a == [] && b == []
  {
    if Perm(a, b) { PermLength(a, b); }
  }

  // ----- a relationship named like the node it leaves -----

  /** Following stops at a relationship named like its source, which is bound
      to a node. */
  lemma {:induction false} SharedNameStops(
    src: VarId, steps: seq<ChainStep>, row: Row, hops: seq<(nat, nat)>, i: nat, env: Env)
    requires |hops| == |steps| && i < |steps|
    requires src in row && row[src].NodeRef?
    requires steps[i].rel.v == Some(if i == 0 then src else steps[i - 1].node.v)
    ensures Follow(src, steps, row, hops, env).None?
    decreases |steps|
  {
    var next := ExpandRow(ExpandOf(src, steps[0]), hops[0].0, hops[0].1, row, env);
    if next != [] && i > 0 {
      SharedNameStops(steps[0].node.v, steps[1..], next[0], hops[1..], i - 1, env);
    }
  }

  /** Such a chain matches nothing; walked from its other end, where the name
      is first met as a relationship, it may. */
  lemma SharedNameIff(c: Chain, row: Row, x: Exec)
    requires ExecValid(x) && !SourcesApart(ReverseChain(c))
    ensures Perm(MatchChain(ReverseChain(c), [row], x), MatchChain(c, [row], x))
      <==> MatchChain(c, [row], x) == []
  {
    var r := ReverseChain(c);
    var i :| 0 <= i < |r.steps| && r.steps[i].rel.v == Some(NodeAt(r, i).v);
    ChainRowsAreWalks(r, row, x);
    forall w: Walk | |w.hops| == |r.steps| ensures WalkRow(r, row, w, x.env).None? {
      var start := HeadRow(r.head, row, w.start, x.env);
      if start.Some? { SharedNameStops(r.head.v, r.steps, start.value, w.hops, i, x.env); }
    }
    NoWalkRows(r, row, AllWalks(x.env.graph, r, x.nodeOrder(ScanOf(r.head))), x.env);
    PermNothing(MatchChain(r, [row], x), MatchChain(c, [row], x));
  }

  // ====================
  // The planner's choices, where to place a conjunct and which end of a chain to start
  // from, never change the rows of a MATCH.

  function PartVars(p: Part): set<VarId> { ChainVars(p.chain) + OptionSet(p.binding) }

  /** `otherwise` is the same pattern with other ends chosen; every chain the
      two choices differ on is well formed where what `bound` names and what
      the parts before it bind is bound. */
  ghost predicate ChainsWellFormed(parts: seq<Part>, otherwise: seq<Part>, bound: set<VarId>)
    decreases |parts|
  {
    && |parts| == |otherwise|
    && (parts == [] ||
        (&& otherwise[0] == parts[0].(fromTail := otherwise[0].fromTail)
         && (Reversible(parts[0]) && parts[0].fromTail != otherwise[0].fromTail ==> ChainWellFormed(parts[0].chain, bound))
         && ChainsWellFormed(parts[1..], otherwise[1..], bound + PartVars(parts[0]))))
  }

  /** Every chain walked from its head. */
  function PartsAsWritten(parts: seq<Part>): (written: seq<Part>)
    ensures |written| == |parts|
  {
    if parts == [] then [] else [parts[0].(fromTail := false)] + PartsAsWritten(parts[1..])
  }

  /** Every chain walked from its tail is well formed. */
  ghost predicate TailsWellFormed(parts: seq<Part>, bound: set<VarId>) {
    ChainsWellFormed(parts, PartsAsWritten(parts), bound)
  }

  ghost predicate PatternWellFormed(parts: seq<Part>, bound: set<VarId>) {
    PathsFresh(parts, {}) && TailsWellFormed(parts, bound)
  }

  ghost predicate RowsBind(rows: seq<Row>, bound: set<VarId>) {
    forall row | row in rows :: bound <= row.Keys
  }

  // ----- what the rows of a pattern bind -----

  /** Every row binds what `least` names, and nothing `most` does not. */
  ghost predicate Between(rows: seq<Row>, least: set<VarId>, most: set<VarId>) {
    forall row | row in rows :: least <= row.Keys <= most
  }

  lemma KeepBetween(es: seq<Expr>, rows: seq<Row>, env: Env, least: set<VarId>, most: set<VarId>)
    requires Between(rows, least, most)
    ensures Between(Keep(es, rows, env), least, most)
  {
    KeepElements(es, rows, env);
  }

  lemma StepBetween(op: LogicalOp, rows: seq<Row>, least: set<VarId>, most: set<VarId>, x: Exec)
    requires op.NodeScan? || op.Expand? || op.PathBuild?
    requires Between(rows, least, most)
    ensures Between(StepAll(op, rows, x), least + Binds(op), most + Binds(op))
  {
    forall s | s in StepAll(op, rows, x) ensures least + Binds(op) <= s.Keys <= most + Binds(op) {
      var r := StepAllExtends(op, rows, s, x);
      StepExtends(op, r, s, x);
    }
  }

  lemma {:induction false} StepsBetween(
    src: VarId, steps: seq<ChainStep>, rows: seq<Row>, least: set<VarId>, most: set<VarId>, x: Exec)
    requires Between(rows, least, most)
    ensures Between(MatchSteps(src, steps, rows, x), least + StepsVars(steps), most + StepsVars(steps))
    decreases |steps|
  {
    if steps != [] {
      var op, s := ExpandOf(src, steps[0]), steps[0];
      StepBetween(op, rows, least, most, x);
      KeepBetween(StepChecks(s), StepAll(op, rows, x), x.env, least + StepVars(s), most + StepVars(s));
      StepsBetween(s.node.v, steps[1..], Keep(StepChecks(s), StepAll(op, rows, x), x.env),
                   least + StepVars(s), most + StepVars(s), x);
    }
  }

  lemma ChainBetween(c: Chain, rows: seq<Row>, least: set<VarId>, most: set<VarId>, x: Exec)
    requires Between(rows, least, most)
    ensures Between(MatchChain(c, rows, x), least + ChainVars(c), most + ChainVars(c))
  {
    StepBetween(ScanOf(c.head), rows, least, most, x);
    KeepBetween(NodeChecks(c.head), StepAll(ScanOf(c.head), rows, x), x.env, least + {c.head.v}, most + {c.head.v});
    StepsBetween(c.head.v, c.steps, MatchNode(c.head, rows, x), least + {c.head.v}, most + {c.head.v}, x);
  }

  lemma PartBetween(p: Part, rows: seq<Row>, least: set<VarId>, most: set<VarId>, x: Exec)
    requires Between(rows, least, most)
    ensures Between(MatchPart(p, rows, x), least + PartVars(p), most + PartVars(p))
  {
    var c := Walked(p);
    ReverseVars(p.chain);
    ChainBetween(c, rows, least, most, x);
    if p.binding.Some? {
      StepBetween(PathOf(p), MatchChain(c, rows, x), least + ChainVars(c), most + ChainVars(c), x);
    }
  }

  function AllKeys(rows: seq<Row>): set<VarId> {
    if rows == [] then {} else rows[0].Keys + AllKeys(rows[1..])
  }

  lemma {:induction false} KeysOfAll(rows: seq<Row>)
    ensures forall row | row in rows :: row.Keys <= AllKeys(rows)
  {
    if rows != [] { KeysOfAll(rows[1..]); }
  }

  /** The rows of a part bind its variables, whichever end it was walked from. */
  lemma PartRowsBind(p: Part, rows: seq<Row>, bound: set<VarId>, x: Exec)
    requires RowsBind(rows, bound)
    ensures RowsBind(MatchPart(p, rows, x), bound + PartVars(p))
  {
    KeysOfAll(rows);
    PartBetween(p, rows, bound, AllKeys(rows), x);
  }

  lemma PermRowsBind(a: seq<Row>, b: seq<Row>, bound: set<VarId>)
    requires Perm(a, b) && RowsBind(a, bound)
    ensures RowsBind(b, bound)
  {
    forall row | row in b ensures row in a { assert row in multiset(b); }
  }

  // ----- either end -----

  lemma {:induction false} KeepPerm(es: seq<Expr>, a: seq<Row>, b: seq<Row>, env: Env)
    requires Perm(a, b)
    ensures Perm(Keep(es, a, env), Keep(es, b, env))
  {
    if a == [] {
      PermLength(a, b);
    } else {
      var i := PermFind(a, b);
      KeepPerm(es, a[1..], b[..i] + b[i + 1..], env);
      assert b == b[..i] + ([b[i]] + b[i + 1..]);
      KeepConcat(es, b[..i], [b[i]] + b[i + 1..], env);
      KeepConcat(es, b[..i], b[i + 1..], env);
      assert ([b[i]] + b[i + 1..])[1..] == b[i + 1..];
    }
  }

  lemma MatchChainPerm(c: Chain, a: seq<Row>, b: seq<Row>, x: Exec)
    requires Perm(a, b)
    ensures Perm(MatchChain(c, a, x), MatchChain(c, b, x))
  {
    MatchChainEach(c, a, x);
    MatchChainEach(c, b, x);
    FlatMapPerm((row: Row) => MatchChain(c, [row], x), a, b);
  }

  lemma PartPerm(p: Part, q: Part, bound: set<VarId>, a: seq<Row>, b: seq<Row>, x: Exec)
    requires ExecValid(x) && Perm(a, b) && RowsBind(a, bound) && q == p.(fromTail := q.fromTail)
    requires Reversible(p) && p.fromTail != q.fromTail ==> ChainWellFormed(p.chain, bound)
    ensures Perm(MatchPart(p, a, x), MatchPart(q, b, x))
  {
    var c, d := Walked(p), Walked(q);
    MatchChainPerm(c, a, b, x);
    if c != d {
      PermRowsBind(a, b, bound);
      ChainFromEitherEnd(p.chain, bound, b, x);
    }
    if p.binding.Some? { StepAllPerm(PathOf(p), MatchChain(c, a, x), MatchChain(d, b, x), x); }
  }

  lemma ChainFromEitherEnd(c: Chain, bound: set<VarId>, rows: seq<Row>, x: Exec)
    requires ExecValid(x) && RowsBind(rows, bound) && ChainWellFormed(c, bound)
    ensures Perm(MatchChain(ReverseChain(c), rows, x), MatchChain(c, rows, x))
  {
    forall row | row in rows ensures ChainWellFormed(c, row.Keys) { SeeAlikeMore(c, bound, row.Keys); }
    SameRowsFromEitherEnd(c, rows, x);
  }

  /** Whatever ends its chains are walked from, a pattern matches the same
      rows. */
  lemma {:induction false} PatternPerm(
    parts: seq<Part>, otherwise: seq<Part>, bound: set<VarId>, a: seq<Row>, b: seq<Row>, x: Exec)
    requires ExecValid(x) && Perm(a, b) && RowsBind(a, bound) && ChainsWellFormed(parts, otherwise, bound)
    ensures Perm(MatchPattern(parts, a, x), MatchPattern(otherwise, b, x))
    decreases |parts|
  {
    if parts == [] { return; }
    PartPerm(parts[0], otherwise[0], bound, a, b, x);
    PartRowsBind(parts[0], a, bound, x);
    PatternPerm(parts[1..], otherwise[1..], bound + PartVars(parts[0]),
                MatchPart(parts[0], a, x), MatchPart(otherwise[0], b, x), x);
  }

  /** The plan of a MATCH, with its conjuncts pushed down and its chains
      walked from whichever ends were chosen, has the rows of the pattern as
      written, read left to right and filtered by the whole WHERE. `bound` is
      bound in every input row. */
  lemma PlanMatchCorrect(
    nodes: seq<LogicalOp>, input: Option<nat>, parts: seq<Part>, where: Option<Expr>, bound: set<VarId>, x: Exec, arg: Row)
    requires Topological(nodes) && (input.Some? ==> input.value < |nodes|)
    requires PatternWellFormed(parts, bound) && ExecValid(x)
    requires RowsBind(InputRows(nodes, input, x, arg), bound)
    ensures var p := PlanMatch(nodes, input, parts, where);
      && Topological(p.st.nodes) && p.node < |p.st.nodes|
      && Perm(Denote(p.st.nodes, p.node, x, arg),
              Keep(WhereList(where),
                   MatchPattern(PartsAsWritten(parts), InputRows(nodes, input, x, arg), x), x.env))
  {
    var rows := InputRows(nodes, input, x, arg);
    WhereKeepsRows(nodes, input, parts, where, x, arg);
    PatternPerm(parts, PartsAsWritten(parts), bound, rows, rows, x);
    KeepPerm(WhereList(where), MatchPattern(parts, rows, x),
             MatchPattern(PartsAsWritten(parts), rows, x), x.env);
  }

  // ----- what a path holds -----

  /** How many of the first `n` steps name their relationship. */
  function NamedBefore(steps: seq<ChainStep>, n: nat): nat
    requires n <= |steps|
  {
    if n == 0 then 0 else (if steps[0].rel.v.Some? then 1 else 0) + NamedBefore(steps[1..], n - 1)
  }

  /** The path lists the nodes of the walk, its start first, and the
      relationships the chain names, in the order walked. */
  ghost predicate PathFollows(c: Chain, w: Walk, path: Value) {
    && |w.hops| == |c.steps| && path.Path?
    && |path.nodes| == |c.steps| + 1 && |path.rels| == NamedBefore(c.steps, |c.steps|)
    && (forall i | 0 <= i <= |c.steps| :: path.nodes[i] == NodeRef(NodeOn(w, i)))
    && (forall i | 0 <= i < |c.steps| && c.steps[i].rel.v.Some? ::
          NamedBefore(c.steps, i) < |path.rels| && path.rels[NamedBefore(c.steps, i)] == RelRef(w.hops[i].0))
  }

  /** No relationship is named like the node it leads to. */
  ghost predicate TargetsApart(steps: seq<ChainStep>) {
    forall i | 0 <= i < |steps| :: steps[i].rel.v != Some(steps[i].node.v)
  }

  lemma {:induction false} StepNodeVarsAt(steps: seq<ChainStep>)
    ensures |StepNodeVars(steps)| == |steps|
    ensures forall i | 0 <= i < |steps| :: StepNodeVars(steps)[i] == steps[i].node.v
  {
    if steps != [] { StepNodeVarsAt(steps[1..]); }
  }

  lemma {:induction false} RelVarsCount(steps: seq<ChainStep>)
    ensures |RelVarsOf(steps)| == NamedBefore(steps, |steps|)
  {
    if steps != [] { RelVarsCount(steps[1..]); }
  }

  lemma {:induction false} RelVarsAt(steps: seq<ChainStep>, i: nat)
    requires i < |steps| && steps[i].rel.v.Some?
    ensures var j := NamedBefore(steps, i); j < |RelVarsOf(steps)| && RelVarsOf(steps)[j] == steps[i].rel.v.value
  {
    if i > 0 { RelVarsAt(steps[1..], i - 1); }
  }

  /** What a followed walk binds stays bound. */
  lemma {:induction false} FollowHolds(
    src: VarId, steps: seq<ChainStep>, row: Row, hops: seq<(nat, nat)>, out: Row, env: Env)
    requires |hops| == |steps| && TargetsApart(steps) && Follow(src, steps, row, hops, env) == Some(out)
    ensures forall v | v in row :: v in out && out[v] == row[v]
    ensures forall i | 0 <= i < |steps| :: Lookup(out, steps[i].node.v) == NodeRef(hops[i].1)
    ensures forall i | 0 <= i < |steps| && steps[i].rel.v.Some? :: Lookup(out, steps[i].rel.v.value) == RelRef(hops[i].0)
    decreases |steps|
  {
    if steps == [] { return; }
    var s, hop := steps[0], hops[0];
    var next := ExpandRow(ExpandOf(src, s), hop.0, hop.1, row, env)[0];
    FollowHolds(s.node.v, steps[1..], next, hops[1..], out, env);
    assert Lookup(next, s.node.v) == NodeRef(hop.1);
    assert s.rel.v.Some? ==> Lookup(next, s.rel.v.value) == RelRef(hop.0);
    forall i | 0 < i < |steps| ensures steps[i] == steps[1..][i - 1] && hops[i] == hops[1..][i - 1] {}
  }

  lemma PathFollowsWalk(c: Chain, w: Walk, row: Row, out: Row, env: Env)
    requires |w.hops| == |c.steps| && TargetsApart(c.steps) && WalkRow(c, row, w, env) == Some(out)
    ensures PathFollows(c, w, Path(LookupAll(out, NodeVarsOf(c)), LookupAll(out, RelVarsOf(c.steps))))
  {
    var mid := HeadRow(c.head, row, w.start, env).value;
    FollowHolds(c.head.v, c.steps, mid, w.hops, out, env);
    StepNodeVarsAt(c.steps);
    RelVarsCount(c.steps);
    forall i | 0 <= i < |c.steps| && c.steps[i].rel.v.Some?
      ensures var j := NamedBefore(c.steps, i);
        j < |RelVarsOf(c.steps)| && RelVarsOf(c.steps)[j] == c.steps[i].rel.v.value
    {
      RelVarsAt(c.steps, i);
    }
    var nodes := LookupAll(out, NodeVarsOf(c));
    forall i | 0 <= i <= |c.steps| ensures nodes[i] == NodeRef(NodeOn(w, i)) {
      assert i > 0 ==> NodeVarsOf(c)[i] == c.steps[i - 1].node.v;
    }
  }

  lemma BuiltRow(op: LogicalOp, r: Row, x: Exec)
    requires op.PathBuild?
    ensures Step(op, r, x) == [r[op.output := Path(LookupAll(r, op.nodeVars), LookupAll(r, op.relVars))]]
  {}

  lemma {:induction false} WalkOfRow(c: Chain, row: Row, ws: seq<Walk>, out: Row, env: Env) returns (w: Walk)
    requires out in FlatMap((w: Walk) => WalkRows(c, row, w, env), ws)
    ensures w in ws && |w.hops| == |c.steps| && WalkRow(c, row, w, env) == Some(out)
  {
    if out in WalkRows(c, row, ws[0], env) { w := ws[0]; } else { w := WalkOfRow(c, row, ws[1..], out, env); }
  }

  /** In every row of a part with a path variable, the path is that of a walk
      in the graph, along the chain as written. */
  lemma PathsAreWalks(p: Part, row: Row, out: Row, x: Exec)
    requires ExecValid(x) && p.binding.Some? && TargetsApart(p.chain.steps) && out in MatchPart(p, [row], x)
    ensures p.binding.value in out
    ensures exists w :: WalkOk(x.env.graph, p.chain, w) && PathFollows(p.chain, w, out[p.binding.value])
  {
    var c, starts := p.chain, x.nodeOrder(ScanOf(p.chain.head));
    var r := StepAllExtends(PathOf(p), MatchChain(c, [row], x), out, x);
    BuiltRow(PathOf(p), r, x);
    ChainRowsAreWalks(c, row, x);
    var w := WalkOfRow(c, row, AllWalks(x.env.graph, c, starts), r, x.env);
    AllWalksSpec(x.env.graph, c, starts);
    PathFollowsWalk(c, w, row, r, x.env);
    assert WalkOk(x.env.graph, c, w);
  }

  // ----- where walking backwards does change the rows -----

  function TinyGraph(): Graph {
    Graph([Some(NodeRecord({}, map["k" := Int(1)])), Some(NodeRecord({"L"}, map["k" := Int(1)]))],
          [Some(RelRecord(0, 1, "T", map[]))])
  }

  function TinyExec(): Exec {
    var g := TinyGraph();
    Exec(
      Env(g, map[],
          (name: string, args: seq<Value>) =>
            if |args| == 2 && args[0].NodeRef? && args[1].Text?
            then Bool(g.HasNode(args[0].node) && args[1].text in g.nodes[args[0].node].value.labels)
            else Null,
          (name: string, args: seq<Value>) => false,
          (id: nat, row: Row) => Null),
      (op: LogicalOp) => [0, 1],
      (op: LogicalOp) => [0],
      (keys: seq<Item>, aggregates: seq<Item>, rows: seq<Row>) => [],
      (a: Value, b: Value) => true)
  }

  /** `(v0)-[]->(v1:L {k: v0.k})`: its tail is the cheaper end to start from. */
  function ReadingChain(): Chain {
    Chain(NodePattern(0, [], None),
          [ChainStep(RelPattern(None, [], Right, None),
                     NodePattern(1, [["L"]], Some(MapOf([Entry("k", Property(Variable(0), "k"))]))))])
  }

  lemma ReadsBackwards(c: Chain)
    requires c == ReadingChain()
    ensures ReadsEarly(ReverseChain(c), {}) && RelKeysOnce(ReverseChain(c).steps)
  {
    var r := ReverseChain(c);
    assert r.head == c.steps[0].node && r.steps[0] == ReversedStep(c, 0);
    assert ReadsAt(r.head.props, 0, 0);
    assert Met(r, 0) == {1};
    assert NodeReadsEarly(r, {}, 0);
  }

  lemma TinyExecValid()
    ensures ExecValid(TinyExec())
  {}

  lemma TinyHead(id: nat)
    requires id < 2
    ensures HeadRow(ReadingChain().head, map[], id, TinyExec().env) == Some(map[0 := NodeRef(id)])
  {}

  lemma TinyScan()
    ensures MatchNode(ReadingChain().head, [map[]], TinyExec())
         == [map[0 := NodeRef(0)], map[0 := NodeRef(1)]]
  {
    var x, head, row: Row := TinyExec(), ReadingChain().head, map[];
    TinyExecValid();
    MatchNodeIsHeadRows(head, row, x);
    TinyHead(0);
    TinyHead(1);
    assert [0, 1][1..] == [1] && [1][1..] == [];
    assert HeadRows(head, row, [1], x.env) == [map[0 := NodeRef(1)]];
  }

  lemma TinyEdges()
    ensures ExpandFrom(TinyGraph(), 0, Right, []) == [(0, 1)] && ExpandFrom(TinyGraph(), 1, Right, []) == []
  {
    var g := TinyGraph();
    assert Outgoing(g, 0, [], 0) == [] && Outgoing(g, 1, [], 0) == [];
  }

  lemma TinyHop()
    ensures var s := ReadingChain().steps[0];
      var out: Row := map[0 := NodeRef(0), 1 := NodeRef(1)];
      StepAll(ExpandOf(0, s), [map[0 := NodeRef(0)], map[0 := NodeRef(1)]], TinyExec()) == [out]
  {
    var x, expand := TinyExec(), ExpandOf(0, ReadingChain().steps[0]);
    var a: Row, b: Row := map[0 := NodeRef(0)], map[0 := NodeRef(1)];
    TinyEdges();
    assert Step(expand, b, x) == [];
    assert [(0, 1)][1..] == [];
    assert ExpandRows(expand, [(0, 1)], a, x.env) == ExpandRow(expand, 0, 1, a, x.env);
    assert Step(expand, a, x) == ExpandRow(expand, 0, 1, a, x.env);
    assert [a, b][1..] == [b];
    assert StepAll(expand, [b], x) == [];
  }

  lemma TinyLabel(out: Row)
    requires 1 in out && out[1] == NodeRef(1)
    ensures Eval(HasLabel(1, "L"), out, TinyExec().env).Truthy()
  {
    var env, e := TinyExec().env, HasLabel(1, "L");
    assert e.args[1..] == [Literal(Text("L"))] && [Literal(Text("L"))][1..] == [];
    assert EvalAll([], out, env) == [];
    assert EvalAll(e.args[1..], out, env) == [Text("L")];
    assert EvalAll(e.args, out, env) == [NodeRef(1), Text("L")];
    assert env.graph.nodes[1] == Some(NodeRecord({"L"}, map["k" := Int(1)]));
  }

  lemma TinyChecks()
    ensures StepChecks(ReadingChain().steps[0])
         == [HasLabel(1, "L"), Binary(Property(Variable(1), "k"), Eq, Property(Variable(0), "k"))]
  {
    assert GroupChecks(1, [["L"]]) == [HasLabel(1, "L")];
  }

  lemma TinyEqual(out: Row)
    requires out == map[0 := NodeRef(0), 1 := NodeRef(1)]
    ensures Eval(Binary(Property(Variable(1), "k"), Eq, Property(Variable(0), "k")), out, TinyExec().env).Truthy()
  {
    var env, l, r := TinyExec().env, Property(Variable(1), "k"), Property(Variable(0), "k");
    assert Eval(l.base, out, env) == NodeRef(1) && Eval(r.base, out, env) == NodeRef(0);
    assert Eval(l, out, env) == Int(1) && Eval(r, out, env) == Int(1);
  }

  lemma TinyCheck()
    ensures AllTrue(StepChecks(ReadingChain().steps[0]), map[0 := NodeRef(0), 1 := NodeRef(1)], TinyExec().env)
  {
    var out: Row := map[0 := NodeRef(0), 1 := NodeRef(1)];
    TinyChecks();
    TinyLabel(out);
    TinyEqual(out);
  }

  lemma TinyBackwards()
    ensures MatchChain(ReverseChain(ReadingChain()), [map[]], TinyExec()) == []
  {
    var row: Row := map[];
    ReadsBackwards(ReadingChain());
    assert row.Keys == {};
    TinyExecValid();
    EarlyMatchesNothing(ReverseChain(ReadingChain()), row, TinyExec());
  }

  lemma TinyForwards()
    ensures MatchChain(ReadingChain(), [map[]], TinyExec()) == [map[0 := NodeRef(0), 1 := NodeRef(1)]]
  {
    var x, c := TinyExec(), ReadingChain();
    var out: Row := map[0 := NodeRef(0), 1 := NodeRef(1)];
    TinyScan();
    TinyHop();
    TinyCheck();
    KeepAll(StepChecks(c.steps[0]), [out], x.env);
    assert MatchSteps(1, [], [out], x) == [out];
    assert c.steps[1..] == [];
  }

  /** A graph on which the two directions differ: one match read forwards,
      none walked from the tail. */
  lemma ReadingChainDiffers()
    ensures ExecValid(TinyExec())
    ensures MatchChain(ReadingChain(), [map[]], TinyExec()) == [map[0 := NodeRef(0), 1 := NodeRef(1)]]
    ensures MatchChain(ReverseChain(ReadingChain()), [map[]], TinyExec()) == []
  {
    TinyExecValid();
    TinyBackwards();
    TinyForwards();
  }
}
