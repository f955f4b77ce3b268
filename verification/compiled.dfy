/** From clauses to the plan that runs: every pass may start from the arena that
    is planned, and what the plan yields is an answer of the query as written. */
module Compiled {
  import opened Values
  import opened Expressions
  import opened Conjuncts
  import opened Sorting
  import opened Logical
  import opened Arena
  import opened Walks
  import opened RangeBounds
  import opened Accesses
  import opened FilterPush
  import opened NodeSeeks
  import opened RelSeeks
  import opened SortOrder
  import opened OrderPass
  import opened TopK
  import opened Optimizing
  import opened PlannedOps
  import opened Runs
  import opened ParamFold
  import opened Planning
  import opened CallFold
  import opened Clauses
  import opened Queries
  import opened Answers
  import opened QueryRuns

  // ----- what an access path reads -----

  /** No conjunct that names `v` names `w`. */
  ghost predicate Apart(cs: seq<Expr>, v: VarId, w: VarId) {
    forall c | c in cs :: v in Vars(c) ==> w !in Vars(c)
  }

  lemma {:induction false} VarsOfItem(es: seq<Expr>, e: Expr)
    requires e in es
    ensures Vars(e) <= VarsAll(es)
  {
    if es[0] != e { VarsOfItem(es[1..], e); }
  }

  lemma IdVars(c: Expr, v: VarId, names: set<string>)
    ensures IdEquality(c, v, names).Some? ==> v in Vars(c) && Vars(IdEquality(c, v, names).value) <= Vars(c)
    ensures IdList(c, v, names).Some? ==> v in Vars(c) && Vars(IdList(c, v, names).value) <= Vars(c)
  {
    if c.Binary? && IsIdOf(c.lhs, v, names) { VarsOfItem(c.lhs.args, Variable(v)); }
    if c.Binary? && IsIdOf(c.rhs, v, names) { VarsOfItem(c.rhs.args, Variable(v)); }
  }

  lemma {:induction false} FirstIdUnread(cs: seq<Expr>, v: VarId, names: set<string>, w: VarId)
    requires Apart(cs, v, w)
    ensures FirstIdEquality(cs, v, names).Some? ==> w !in Vars(FirstIdEquality(cs, v, names).value)
    ensures FirstIdList(cs, v, names).Some? ==> w !in Vars(FirstIdList(cs, v, names).value)
  {
    if cs != [] {
      IdVars(cs[0], v, names);
      FirstIdUnread(cs[1..], v, names, w);
    }
  }

  lemma ElementVars(c: Expr, v: VarId)
    requires ElementTestOf(c, v).Some?
    ensures v in Vars(c) && Vars(ElementTestOf(c, v).value.value) <= Vars(c)
  {
    if c.Binary? {
      PropertyVar(c.rhs, v);
    } else {
      PropertyVar(c.list, v);
      assert Vars(c.pred) == Vars(c.pred.lhs) + Vars(c.pred.rhs);
    }
  }

  lemma {:induction false} ElementValuesVars(ds: seq<Expr>, v: VarId, key: string, all: set<VarId>)
    requires forall d | d in ds :: Vars(d) <= all
    ensures ElementValues(ds, v, key).Some? ==> VarsAll(ElementValues(ds, v, key).value) <= all
  {
    if ds != [] {
      if ElementTestOf(ds[0], v).Some? { ElementVars(ds[0], v); }
      assert ds[0] in ds;
      ElementValuesVars(ds[1..], v, key, all);
    }
  }

  lemma AnyElementVars(c: Expr, v: VarId)
    requires AnyElementTestOf(c, v).Some?
    ensures v in Vars(c) && Vars(AnyElementTestOf(c, v).value.value) <= Vars(c)
  {
    if IsOr(c) {
      var ds := DisjunctsOf(c);
      forall d | d in ds ensures Vars(d) <= Vars(c) { VarsOfDisjunct(c, d); }
      ElementVars(ds[0], v);
      assert ds[0] in ds;
      ElementValuesVars(ds, v, ElementTestOf(ds[0], v).value.key, Vars(c));
    } else {
      var rhs := c.pred.rhs;
      if PropertyAccess(rhs, v).Some? { PropertyVar(rhs, v); } else { PropertyVar(c.list, v); }
      assert Vars(c.pred) == Vars(c.pred.lhs) + Vars(rhs);
    }
  }

  ghost predicate KeyedUnread(ks: seq<Keyed>, w: VarId) { forall k | k in ks :: w !in Vars(k.value) }

  lemma {:induction false} GatheredUnread(cs: seq<Expr>, v: VarId, w: VarId)
    requires Apart(cs, v, w)
    ensures KeyedUnread(Gather(cs, v, ElementTestOf), w) && KeyedUnread(Gather(cs, v, AnyElementTestOf), w)
  {
    if cs != [] {
      if ElementTestOf(cs[0], v).Some? { ElementVars(cs[0], v); }
      if AnyElementTestOf(cs[0], v).Some? { AnyElementVars(cs[0], v); }
      GatheredUnread(cs[1..], v, w);
    }
  }

  lemma {:induction false} FirstPerKeyUnread(ks: seq<Keyed>, seen: set<string>, indexed: string -> bool, w: VarId)
    requires KeyedUnread(ks, w)
    ensures KeyedUnread(FirstPerKey(ks, seen, indexed), w)
  {
    if ks != [] {
      FirstPerKeyUnread(ks[1..], seen, indexed, w);
      FirstPerKeyUnread(ks[1..], seen + {ks[0].key}, indexed, w);
    }
  }

  lemma {:induction false} IndexedUnread(ks: seq<Keyed>, indexed: string -> bool, w: VarId)
    requires KeyedUnread(ks, w)
    ensures KeyedUnread(Indexed(ks, indexed), w)
  {
    if ks != [] { IndexedUnread(ks[1..], indexed, w); }
  }

  lemma {:induction false} SeeksUnread(ks: seq<Keyed>, seek: PropertySeek, w: VarId)
    requires KeyedUnread(ks, w)
    ensures forall a | a in Seeks(ks, seek) :: w !in AccessVars(a)
  {
    if ks != [] { SeeksUnread(ks[1..], seek, w); }
  }

  lemma ElementSeeksUnread(pred: Expr, v: VarId, indexed: string -> bool, w: VarId)
    requires Apart(ConjunctsOf(pred), v, w)
    ensures forall a | a in ElementSeeks(pred, v, indexed) :: w !in AccessVars(a)
  {
    var cs := ConjunctsOf(pred);
    GatheredUnread(cs, v, w);
    FirstPerKeyUnread(Gather(cs, v, ElementTestOf), {}, indexed, w);
    IndexedUnread(Gather(cs, v, AnyElementTestOf), indexed, w);
    SeeksUnread(FirstPerKey(Gather(cs, v, ElementTestOf), {}, indexed), SeekElement, w);
    SeeksUnread(Indexed(Gather(cs, v, AnyElementTestOf), indexed), SeekAnyElement, w);
  }

  lemma {:induction false} TextUnread(e: Expr, v: VarId, w: VarId)
    requires Apart(ConjunctsOf(e), v, w)
    ensures FirstText(e, v).Some? ==> w !in AccessVars(FirstText(e, v).value)
  {
    if IsAnd(e) {
      TextUnread(e.lhs, v, w);
      TextUnread(e.rhs, v, w);
    } else if FirstText(e, v).Some? {
      assert e in ConjunctsOf(e);
      PropertyVar(e.lhs, v);
    }
  }

  lemma {:induction false} PointUnread(e: Expr, v: VarId, w: VarId)
    requires Apart(ConjunctsOf(e), v, w)
    ensures FirstPoint(e, v).Some? ==> w !in AccessVars(FirstPoint(e, v).value)
  {
    if IsAnd(e) {
      PointUnread(e.lhs, v, w);
      PointUnread(e.rhs, v, w);
    } else {
      assert e in ConjunctsOf(e);
      PointVars(e, v);
    }
  }

  lemma {:induction false} PointVars(e: Expr, v: VarId)
    requires !IsAnd(e)
    ensures FirstPoint(e, v).Some? ==> v in Vars(e) && AccessVars(FirstPoint(e, v).value) <= Vars(e)
  {
    if e.Call? && BoxAccess(e, v).Some? {
      VarsOfItem(e.args, e.args[0]);
      VarsOfItem(e.args, e.args[1]);
      VarsOfItem(e.args, e.args[2]);
    } else if e.Binary? && DistanceAccess(e, v).Some? {
      var call := if e.op.Le? || e.op.Lt? then e.lhs else e.rhs;
      VarsOfItem(call.args, call.args[0]);
      VarsOfItem(call.args, call.args[1]);
    }
  }

  lemma {:induction false} VisitsApart(e: Expr, v: VarId, w: VarId)
    requires Apart(ConjunctsOf(e), v, w)
    ensures forall visit | visit in VisitsOf(e, v) :: w !in Vars(visit.value)
  {
    if IsAnd(e) {
      VisitsApart(e.lhs, v, w);
      VisitsApart(e.rhs, v, w);
    } else if e.Binary? {
      assert e in ConjunctsOf(e);
      if PropertyAccess(e.lhs, v).Some? { PropertyVar(e.lhs, v); }
      if PropertyAccess(e.rhs, v).Some? { PropertyVar(e.rhs, v); }
    }
  }

  lemma RangeUnread(pred: Expr, v: VarId, round: Rounding, indexed: string -> bool, w: VarId)
    requires Apart(ConjunctsOf(pred), v, w)
    ensures var range := CollectBounds(pred, v, round);
      forall a | a in RangeSeeks(if range.None? then [] else [range.value], indexed) :: w !in AccessVars(a)
  {
    var visits := VisitsOf(pred, v);
    VisitsApart(pred, v, w);
    if visits != [] {
      AddAllUnread(NoBounds(visits[0].key), visits, round, w);
      var b := CollectBounds(pred, v, round).value;
      assert [b][1..] == [] && RangeSeeks([], indexed) == [];
    }
  }

  ghost predicate NoneReads(candidates: seq<Access>, w: VarId) { forall a | a in candidates :: w !in AccessVars(a) }

  lemma NoneReadsConcat(a: seq<Access>, b: seq<Access>, w: VarId)
    requires NoneReads(a, w) && NoneReads(b, w)
    ensures NoneReads(a + b, w)
  {}

  lemma RelCandidatesUnread(
    types: seq<string>, pred: Expr, v: VarId, catalog: Catalog, round: Rounding, whole: PointTest -> bool, w: VarId)
    requires Apart(ConjunctsOf(pred), v, w)
    ensures NoneReads(RelCandidates(types, pred, v, catalog, round, whole), w)
  {
    var range, on := CollectBounds(pred, v, round), OnEvery(catalog, RangeIndex, types);
    var text := TextSeeks(pred, v, OnEvery(catalog, TextIndex, types));
    var ranges := RangeSeeks(if range.None? then [] else [range.value], on);
    TextUnread(pred, v, w);
    PointUnread(pred, v, w);
    RangeUnread(pred, v, round, on, w);
    ElementSeeksUnread(pred, v, on, w);
    NoneReadsConcat(text, ranges, w);
    NoneReadsConcat(text + ranges, ElementSeeks(pred, v, on), w);
    NoneReadsConcat(text + ranges + ElementSeeks(pred, v, on),
                    PointSeeks(pred, v, OnEvery(catalog, PointIndex, types), whole), w);
  }

  /** An access path of a relationship reads only what the conjuncts that name
      the relationship do. */
  lemma RelAccessUnread(
    scan: LogicalOp, expand: LogicalOp, pred: Expr, site: nat, advice: Advice, w: VarId)
    requires scan.NodeScan? && expand.Expand? && expand.relVar.Some?
    requires Apart(ConjunctsOf(pred), expand.relVar.value, w)
    ensures var a := RelAccess(scan, expand, pred, site, advice); a.Some? ==> w !in AccessVars(a.value)
  {
    FirstIdUnread(ConjunctsOf(pred), expand.relVar.value, REL_ID_FUNCTIONS, w);
    RelCandidatesUnread(expand.types, pred, expand.relVar.value, advice.catalog, advice.round, advice.whole, w);
  }

  // ----- the sites of the seeks -----

  lemma {:induction false} FirstTextConjunct(e: Expr, v: VarId)
    requires FirstText(e, v).Some?
    ensures exists c :: c in ConjunctsOf(e) && !IsAnd(c) && FirstText(c, v) == FirstText(e, v)
  {
    if IsAnd(e) {
      if FirstText(e.lhs, v).Some? {
        FirstTextConjunct(e.lhs, v);
        var c :| c in ConjunctsOf(e.lhs) && !IsAnd(c) && FirstText(c, v) == FirstText(e, v);
        assert c in ConjunctsOf(e);
      } else {
        FirstTextConjunct(e.rhs, v);
        var c :| c in ConjunctsOf(e.rhs) && !IsAnd(c) && FirstText(c, v) == FirstText(e, v);
        assert c in ConjunctsOf(e);
      }
    } else {
      assert e in ConjunctsOf(e);
    }
  }

  lemma TextAsked(pred: Expr, v: VarId, names: Names, g: Graph)
    requires ConjunctsAsked(pred, names, g) && FirstText(pred, v).Some?
    ensures var a := FirstText(pred, v).value; a.test.TestContains? ==> NoLists(a.key, g)
  {
    FirstTextConjunct(pred, v);
    EachAsked(pred, names, g);
    var c :| c in ConjunctsOf(pred) && !IsAnd(c) && FirstText(c, v) == FirstText(pred, v);
    assert ConjunctAsked(c, names, g);
  }

  lemma NodeSitesAsked(nodes: seq<LogicalOp>, names: Names, most: nat, env: Env)
    requires AllAsked(nodes, names, most, env)
    ensures NodeSitesFit(nodes, env.graph)
  {
    forall i | 0 <= i < |nodes| && nodes[i].Filter? && nodes[i].input < |nodes| && nodes[nodes[i].input].NodeScan?
      ensures OwnElements(nodes[i].pred, nodes[nodes[i].input].v)
      ensures var scan := nodes[nodes[i].input]; NoTextOnLists(scan.labels, nodes[i].pred, scan.v, env.graph)
    {
      var scan, pred := nodes[nodes[i].input], nodes[i].pred;
      assert OpAsked(nodes[i], names, most, env) && OpAsked(scan, names, most, env);
      EachAsked(pred, names, env.graph);
      if FirstText(pred, scan.v).Some? { TextAsked(pred, scan.v, names, env.graph); }
    }
  }

  lemma RelSiteAsked(nodes: seq<LogicalOp>, i: nat, advice: Advice, names: Names, most: nat, env: Env)
    requires AllAsked(nodes, names, most, env) && IsRelSite(nodes, i)
    ensures RelSiteFits(nodes, i, advice, env.graph)
  {
    var pred, expand := nodes[i].pred, nodes[nodes[i].input];
    var scan, r := nodes[expand.input], expand.relVar.value;
    assert OpAsked(nodes[i], names, most, env) && OpAsked(expand, names, most, env);
    EachAsked(pred, names, env.graph);
    assert (expand.src, r, expand.dst) in names.hops;
    if FirstText(pred, r).Some? { TextAsked(pred, r, names, env.graph); }
    RelAccessUnread(scan, expand, pred, i, advice, expand.src);
    RelAccessUnread(scan, expand, pred, i, advice, expand.dst);
  }

  lemma RelSitesAsked(nodes: seq<LogicalOp>, advice: Advice, names: Names, most: nat, env: Env)
    requires AllAsked(nodes, names, most, env)
    ensures RelSitesFit(nodes, advice, env.graph)
  {
    forall i | 0 <= i < |nodes| && IsRelSite(nodes, i) ensures RelSiteFits(nodes, i, advice, env.graph) {
      RelSiteAsked(nodes, i, advice, names, most, env);
    }
  }

  lemma LimitsAsked(nodes: seq<LogicalOp>, names: Names, most: nat, env: Env)
    requires AllAsked(nodes, names, most, env)
    ensures LimitSites(nodes, most, env)
  {
    forall i | 0 <= i < |nodes| ensures LimitSite(nodes, i, most, env) { assert OpAsked(nodes[i], names, most, env); }
  }

  // ----- through the passes -----

  /** What the rewrite leaves of a node on the way from a sort to a scan. */
  ghost predicate SameWayAt(a: LogicalOp, b: LogicalOp) {
    && (b.Projection? || b.Sort? ==> a == b)
    && (b.Filter? ==>
          a.Filter? && a.input == b.input && Vars(b.pred) <= Vars(a.pred) && (SoleOr(a.pred) ==> SoleOr(b.pred)))
    && (b.NodeScan? || b.NodeSeek? ==> a.NodeScan? || a.NodeSeek?)
  }

  ghost predicate SameWay(a: seq<LogicalOp>, b: seq<LogicalOp>) {
    Topological(a) && Topological(b) && |a| == |b| && forall id | 0 <= id < |a| :: SameWayAt(a[id], b[id])
  }

  lemma {:induction false} WayCarries(a: seq<LogicalOp>, b: seq<LogicalOp>, id: nat)
    requires SameWay(a, b) && id < |a|
    ensures (Reaches(b, id) ==> Reaches(a, id)) && (Layered(b, id) ==> Layered(a, id))
    decreases id
  {
    assert SameWayAt(a[id], b[id]);
    if b[id].Filter? || b[id].Projection? {
      assert b[id].input in Inputs(b[id]) && InputsBelow(b[id], id);
      WayCarries(a, b, b[id].input);
    }
  }

  lemma {:induction false} PathCarries(
    a: seq<LogicalOp>, b: seq<LogicalOp>, id: nat, scope: set<VarId>, scanned: set<VarId>)
    requires SameWay(a, b) && id < |a| && PathAsked(a, id, scope, scanned)
    ensures PathAsked(b, id, scope, scanned)
    decreases id
  {
    assert SameWayAt(a[id], b[id]);
    if b[id].Filter? {
      var input := b[id].input;
      assert input in Inputs(b[id]) && InputsBelow(b[id], id);
      WayCarries(a, b, input);
      PathLess(a, input, scope + Vars(b[id].pred) * scanned, scope + Vars(a[id].pred) * scanned, scanned);
      PathCarries(a, b, input, scope + Vars(b[id].pred) * scanned, scanned);
    } else if b[id].Projection? {
      assert b[id].input in Inputs(b[id]) && InputsBelow(b[id], id);
      WayCarries(a, b, id);
      if Reaches(b, id) {
        PathCarries(a, b, b[id].input, (scope - Outputs(b[id].items)) + ItemKeyVars(b[id].items), scanned);
      }
    }
  }

  lemma SortsCarry(a: seq<LogicalOp>, b: seq<LogicalOp>, names: Names)
    requires SameWay(a, b) && SortsAsked(a, names)
    ensures SortsAsked(b, names)
  {
    forall i | 0 <= i < |b| ensures SortAsked(b, i, names) {
      assert SameWayAt(a[i], b[i]);
      if b[i].Sort? {
        assert SortAsked(a, i, names);
        WayCarries(a, b, a[i].input);
        if Layered(b, a[i].input) { PathCarries(a, b, a[i].input, LeadVars(a[i].keys), names.scanned); }
      }
    }
  }

  // ----- pushing filters -----

  lemma {:induction false} PushWay(nodes: seq<LogicalOp>, i: nat, id: nat)
    requires Topological(nodes) && Topological(PushAt(nodes, i)) && id < |nodes|
    ensures var out := PushAt(nodes, i);
      (Reaches(out, id) ==> Reaches(nodes, id)) && (Layered(out, id) ==> Layered(nodes, id))
    decreases id
  {
    var out, op := PushAt(nodes, i), nodes[id];
    if op.Filter? || op.Projection? {
      assert op.input in Inputs(op) && InputsBelow(op, id);
      PushWay(nodes, i, op.input);
      if out != nodes && id == i {
        var j := op.input;
        assert nodes[j].input in Inputs(nodes[j]) && InputsBelow(nodes[j], j);
        PushWay(nodes, i, nodes[j].input);
      }
      if Layered(out, op.input) { LayeredReaches(out, op.input); }
    }
  }

  /** Of filters, projections and sorts only node `i` reads node `j`. */
  ghost predicate ReadBy(nodes: seq<LogicalOp>, i: nat, j: nat) {
    forall k | 0 <= k < |nodes| && k != i && (nodes[k].Filter? || nodes[k].Projection? || nodes[k].Sort?) ::
      nodes[k].input != j
  }

  /** The filter that moves names no scanned variable, and the projection keeps
      meaning what it did. */
  lemma SwapPath(nodes: seq<LogicalOp>, i: nat, scope: set<VarId>, scanned: set<VarId>)
    requires Topological(nodes) && Topological(PushAt(nodes, i)) && PushAt(nodes, i) != nodes
    requires nodes[i].input < i && nodes[nodes[i].input].input < nodes[i].input
    requires PathAsked(nodes, i, scope, scanned) && Reaches(PushAt(nodes, i), i)
    requires var k, kept := nodes[nodes[i].input].input, ItemKeyVars(nodes[nodes[i].input].items);
      PathAsked(nodes, k, kept, scanned) ==> PathAsked(PushAt(nodes, i), k, kept, scanned)
    ensures PathAsked(PushAt(nodes, i), i, scope, scanned)
  {
    var out, j, pred := PushAt(nodes, i), nodes[i].input, nodes[i].pred;
    var k, items := nodes[j].input, nodes[j].items;
    PushWay(nodes, i, k);
    PushWay(nodes, i, i);
    assert Reaches(nodes, j);
    assert scope + Vars(pred) * scanned <= Outputs(items);
    assert Vars(pred) * scanned == {};
    assert ((scope + Vars(pred) * scanned) - Outputs(items)) + ItemKeyVars(items) == ItemKeyVars(items);
    assert (scope - Outputs(items)) + ItemKeyVars(items) == ItemKeyVars(items);
    assert ItemKeyVars(items) + Vars(pred) * scanned == ItemKeyVars(items);
    assert Layered(nodes, j) && SoleOr(pred);
  }

  lemma {:induction false} PushPath(nodes: seq<LogicalOp>, i: nat, id: nat, scope: set<VarId>, scanned: set<VarId>)
    requires Topological(nodes) && Topological(PushAt(nodes, i)) && PushAt(nodes, i) != nodes && id < |nodes|
    requires ReadBy(nodes, i, nodes[i].input) && id != nodes[i].input && PathAsked(nodes, id, scope, scanned)
    ensures PathAsked(PushAt(nodes, i), id, scope, scanned)
    decreases id
  {
    var out, op := PushAt(nodes, i), nodes[id];
    if op.Filter? || op.Projection? {
      assert op.input in Inputs(op) && InputsBelow(op, id);
      PushWay(nodes, i, id);
      PushWay(nodes, i, op.input);
      if id == i {
        var j := op.input;
        var kept := ItemKeyVars(nodes[j].items);
        assert nodes[j].input in Inputs(nodes[j]) && InputsBelow(nodes[j], j);
        if PathAsked(nodes, nodes[j].input, kept, scanned) { PushPath(nodes, i, nodes[j].input, kept, scanned); }
        if Reaches(out, i) { SwapPath(nodes, i, scope, scanned); }
      } else if op.Filter? {
        PushPath(nodes, i, op.input, scope + Vars(op.pred) * scanned, scanned);
      } else if Reaches(out, id) {
        PushPath(nodes, i, op.input, (scope - Outputs(op.items)) + ItemKeyVars(op.items), scanned);
      }
    }
  }

  lemma ReadOnce(root: nat, nodes: seq<LogicalOp>, live: set<nat>, i: nat)
    requires PlanOk(root, nodes, live) && PushAt(nodes, i) != nodes
    ensures ReadBy(nodes, i, nodes[i].input)
  {
    PushAtShape(root, nodes, live, i);
    forall k | 0 <= k < |nodes| && k != i && (nodes[k].Filter? || nodes[k].Projection? || nodes[k].Sort?)
      ensures nodes[k].input != nodes[i].input
    {
      assert nodes[k].input in Inputs(nodes[k]);
      assert k in live;
    }
  }

  lemma PushSorts(root: nat, nodes: seq<LogicalOp>, live: set<nat>, i: nat, names: Names)
    requires PlanOk(root, nodes, live) && Topological(PushAt(nodes, i)) && SortsAsked(nodes, names)
    ensures SortsAsked(PushAt(nodes, i), names)
  {
    var out := PushAt(nodes, i);
    if out != nodes {
      ReadOnce(root, nodes, live, i);
      forall s | 0 <= s < |out| ensures SortAsked(out, s, names) {
        if out[s].Sort? {
          assert SortAsked(nodes, s, names);
          PushWay(nodes, i, nodes[s].input);
          if Layered(out, nodes[s].input) {
            PushPath(nodes, i, nodes[s].input, LeadVars(nodes[s].keys), names.scanned);
          }
        }
      }
    }
  }

  lemma PushAtAsked(root: nat, nodes: seq<LogicalOp>, live: set<nat>, i: nat, names: Names, most: nat, env: Env)
    requires PlanOk(root, nodes, live) && ArenaAsked(nodes, names, most, env)
    ensures ArenaAsked(PushAt(nodes, i), names, most, env)
  {
    var out := PushAt(nodes, i);
    PushAtTopological(nodes, i);
    PushSorts(root, nodes, live, i, names);
    forall k | 0 <= k < |out| ensures OpAsked(out[k], names, most, env) {
      assert OpAsked(nodes[k], names, most, env);
      if out != nodes && k == nodes[i].input { assert OpAsked(nodes[i], names, most, env); }
    }
  }

  lemma {:induction false} PushAsked(
    root: nat, nodes: seq<LogicalOp>, live: set<nat>, i: nat, names: Names, most: nat, env: Env)
    requires PlanOk(root, nodes, live) && WellScoped(nodes) && ArenaAsked(nodes, names, most, env)
    ensures ArenaAsked(PushFrom(nodes, i), names, most, env)
    decreases |nodes| - i
  {
    if i < |nodes| {
      PushAtPlan(root, nodes, live, i);
      PushAtAsked(root, nodes, live, i, names, most, env);
      PushAsked(root, PushAt(nodes, i), live, i + 1, names, most, env);
    }
  }

  // ----- seeks -----

  /** Overwriting a node that is neither filter nor projection by one that
      leads to a scan only where it did. */
  lemma LeafAsked(nodes: seq<LogicalOp>, j: nat, op: LogicalOp, names: Names, most: nat, env: Env)
    requires ArenaAsked(nodes, names, most, env) && j < |nodes| && Topological(nodes[j := op])
    requires !op.Filter? && !op.Projection? && !op.Sort? && (op.NodeScan? || op.NodeSeek? ==> nodes[j].NodeScan?)
    requires OpAsked(op, names, most, env)
    ensures ArenaAsked(nodes[j := op], names, most, env)
  {
    var out := nodes[j := op];
    forall id | 0 <= id < |nodes| ensures SameWayAt(nodes[id], out[id]) {}
    SortsCarry(nodes, out, names);
  }

  ghost predicate NoNulls(candidates: seq<Access>) { forall a | a in candidates :: a.ByRange? ==> a.nulls.None? }

  lemma NoNullsConcat(a: seq<Access>, b: seq<Access>)
    requires NoNulls(a) && NoNulls(b)
    ensures NoNulls(a + b)
  {}

  lemma CandidateNulls(
    labels: Labels, pred: Expr, v: VarId, catalog: Catalog, round: Rounding, whole: PointTest -> bool)
    ensures NoNulls(NodeCandidates(labels, pred, v, catalog, round, whole))
  {
    var first, sole := FirstLabel(labels), IndexedOn(catalog, RangeIndex, SoleLabel(labels));
    var equal, within, held := EqualitySeeks(pred, v), if first.Some? then InSeeks(pred, v) else [], ElementSeeks(pred, v, sole);
    var range := RangeSeeks(Ranges(pred, v, round), IndexedOn(catalog, RangeIndex, first));
    var text := TextSeeks(pred, v, IndexedOn(catalog, TextIndex, first));
    SeekKinds(pred, v, sole);
    RangeSeeksAreRange(Ranges(pred, v, round), IndexedOn(catalog, RangeIndex, first));
    NoNullsConcat(equal, within);
    NoNullsConcat(equal + within, held);
    NoNullsConcat(equal + within + held, range);
    NoNullsConcat(equal + within + held + range, text);
    NoNullsConcat(equal + within + held + range + text, PointSeeks(pred, v, IndexedOn(catalog, PointIndex, first), whole));
  }

  lemma NodeAccessNulls(scan: LogicalOp, pred: Expr, site: nat, advice: Advice)
    requires scan.NodeScan?
    ensures var a := NodeAccess(scan, pred, site, advice); a.Some? && a.value.ByRange? ==> a.value.nulls.None?
  {
    CandidateNulls(scan.labels, pred, scan.v, advice.catalog, advice.round, advice.whole);
  }

  lemma SeekAtAsked(nodes: seq<LogicalOp>, i: nat, advice: Advice, names: Names, most: nat, env: Env)
    requires ArenaAsked(nodes, names, most, env)
    ensures ArenaAsked(SeekAt(nodes, i, advice), names, most, env)
  {
    var out := SeekAt(nodes, i, advice);
    SeekAtTopological(nodes, i, advice);
    if out != nodes {
      var j := nodes[i].input;
      NodeAccessNulls(nodes[j], nodes[i].pred, i, advice);
      assert OpAsked(nodes[j], names, most, env);
      LeafAsked(nodes, j, out[j], names, most, env);
      assert out == nodes[j := out[j]];
    }
  }

  lemma {:induction false} SeekAsked(nodes: seq<LogicalOp>, i: nat, advice: Advice, names: Names, most: nat, env: Env)
    requires ArenaAsked(nodes, names, most, env)
    ensures ArenaAsked(SeekFrom(nodes, i, advice), names, most, env)
    decreases |nodes| - i
  {
    if i < |nodes| {
      assert SeekFrom(nodes, i, advice) == SeekFrom(SeekAt(nodes, i, advice), i + 1, advice);
      SeekAtAsked(nodes, i, advice, names, most, env);
      SeekAsked(SeekAt(nodes, i, advice), i + 1, advice, names, most, env);
    }
  }

  lemma RelSeekAtAsked(nodes: seq<LogicalOp>, i: nat, advice: Advice, names: Names, most: nat, env: Env)
    requires ArenaAsked(nodes, names, most, env)
    ensures ArenaAsked(RelSeekAt(nodes, i, advice), names, most, env)
  {
    var out := RelSeekAt(nodes, i, advice);
    RelSeekAtAbove(nodes, i, advice);
    if out != nodes {
      var m := nodes[i].input;
      assert out == nodes[m := out[m]];
      LeafAsked(nodes, m, out[m], names, most, env);
    }
  }

  lemma {:induction false} RelSeekAsked(
    nodes: seq<LogicalOp>, i: nat, advice: Advice, names: Names, most: nat, env: Env)
    requires ArenaAsked(nodes, names, most, env)
    ensures ArenaAsked(RelSeekFrom(nodes, i, advice), names, most, env)
    decreases |nodes| - i
  {
    if i < |nodes| {
      RelSeekAtAsked(nodes, i, advice, names, most, env);
      RelSeekAsked(RelSeekAt(nodes, i, advice), i + 1, advice, names, most, env);
    }
  }

  // ----- the sites of the sorts -----

  lemma SortPathClean(
    nodes: seq<LogicalOp>, j: nat, d: Descent, v: VarId, k: string, round: Rounding, names: Names)
    requires Topological(nodes) && SortsAsked(nodes, names) && j < |nodes| && nodes[j].Sort? && nodes[j].keys != []
    requires nodes[j].input < |nodes| && Descends(nodes, nodes[j].input, nodes[j].keys[0].expr, [], d)
    requires d.key == Property(Variable(v), k) && v in names.scanned
    ensures CleanPath(nodes, nodes[j].input, nodes[j].keys[0].expr) && RangesStable(nodes, nodes[j].input, v, k, round)
  {
    var t, key := nodes[j].input, nodes[j].keys[0].expr;
    var scope := LeadVars(nodes[j].keys);
    assert SortAsked(nodes, j, names);
    if !Layered(nodes, t) { FlatPath(nodes, t, scope, names.scanned); }
    PathClean(nodes, t, key, [], d, v, k, round, scope, names.scanned);
  }

  lemma SortSiteClean(
    nodes: seq<LogicalOp>, j: nat, catalog: Catalog, round: Rounding, names: Names, most: nat, env: Env)
    requires ArenaAsked(nodes, names, most, env)
    ensures SiteClean(nodes, j, catalog, round)
  {
    if OrderAt(nodes, j, catalog, round) != nodes {
      var d := OrderAtFound(nodes, j, catalog, round);
      var scan := nodes[d.scan];
      assert OpAsked(nodes[j], names, most, env) && OpAsked(scan, names, most, env);
      assert nodes[j].input in Inputs(nodes[j]) && InputsBelow(nodes[j], j);
      var v, k := d.key.base.v, d.key.key;
      SortPathClean(nodes, j, d, v, k, round, names);
      assert OrderSite(nodes, j, d, v, k, catalog, round);
    }
  }

  /** What the clauses are asked is all the passes ask. */
  lemma SitesAsked(
    root: nat, nodes: seq<LogicalOp>, live: set<nat>, advice: Advice, names: Names, most: nat, x: Exec)
    requires PlanOk(root, nodes, live) && WellScoped(nodes) && ArenaAsked(nodes, names, most, x.env)
    ensures var pushed := PushFrom(nodes, 0);
      && NodeSitesFit(pushed, x.env.graph) && RelSitesFit(SeekFrom(pushed, 0, advice), advice, x.env.graph)
      && SitesClean(Sought(nodes, advice), 0, advice.catalog, advice.round) && LimitSites(nodes, most, x.env)
  {
    var pushed := PushFrom(nodes, 0);
    var seeked, sought := SeekFrom(pushed, 0, advice), Sought(nodes, advice);
    LimitsAsked(nodes, names, most, x.env);
    PushAsked(root, nodes, live, 0, names, most, x.env);
    NodeSitesAsked(pushed, names, most, x.env);
    SeekAsked(pushed, 0, advice, names, most, x.env);
    RelSitesAsked(seeked, advice, names, most, x.env);
    RelSeekAsked(seeked, 0, advice, names, most, x.env);
    forall j | 0 <= j < |sought| ensures SiteClean(sought, j, advice.catalog, advice.round) {
      SortSiteClean(sought, j, advice.catalog, advice.round, names, most, x.env);
    }
  }

  // ====================
  // Parameter null tests are folded before the passes: what the folded plan keeps of the
  // plan, and of what its clauses were asked.

  // ----- a folded predicate -----

  lemma {:induction false} FoldedVars(e: Expr, nullness: Nullness)
    ensures Vars(Folded(e, nullness)) <= Vars(e) && Free(Folded(e, nullness)) <= Free(e)
  {
    if IsConnective(e) && !IsParamTest(e) {
      FoldedVars(e.lhs, nullness);
      FoldedVars(e.rhs, nullness);
    } else if IsNot(e) {
      FoldedVars(e.arg, nullness);
    }
  }

  /** Folding decides only what knowing the parameters may decide. */
  lemma {:induction false} FoldedDecides(e: Expr, nullness: Nullness)
    ensures CanDecide(Folded(e, nullness)) ==> CanDecide(e)
  {
    if IsConnective(e) && !IsParamTest(e) {
      FoldedDecides(e.lhs, nullness);
      FoldedDecides(e.rhs, nullness);
    } else if IsNot(e) {
      FoldedDecides(e.arg, nullness);
    }
  }

  lemma LiteralAsked(b: bool, names: Names, g: Graph)
    ensures ConjunctsAsked(Literal(Bool(b)), names, g)
  {}

  /** An OR whose operands have folded. */
  lemma FoldedOrAsked(e: Expr, l: Expr, r: Expr, names: Names, g: Graph)
    requires IsOr(e) && ConjunctsAsked(e, names, g) && Vars(l) <= Vars(e.lhs) && Vars(r) <= Vars(e.rhs)
    requires CanDecide(l) ==> CanDecide(e.lhs) && ConjunctsAsked(r, names, g)
    requires CanDecide(r) ==> CanDecide(e.rhs) && ConjunctsAsked(l, names, g)
    ensures ConjunctsAsked(FoldConnective(l, Or, r), names, g)
  {
    LiteralAsked(true, names, g);
    if BoolLiteral(l).None? && BoolLiteral(r).None? {
      assert Vars(Binary(l, Or, r)) <= Vars(e);
    }
  }

  lemma {:induction false} FoldedAsked(e: Expr, nullness: Nullness, names: Names, g: Graph)
    requires ConjunctsAsked(e, names, g)
    ensures ConjunctsAsked(Folded(e, nullness), names, g)
  {
    if IsParamTest(e) {
      LiteralAsked(true, names, g);
      LiteralAsked(false, names, g);
    } else if IsAnd(e) {
      FoldedAsked(e.lhs, nullness, names, g);
      FoldedAsked(e.rhs, nullness, names, g);
      LiteralAsked(false, names, g);
    } else if IsOr(e) {
      var l, r := Folded(e.lhs, nullness), Folded(e.rhs, nullness);
      FoldedVars(e.lhs, nullness);
      FoldedVars(e.rhs, nullness);
      FoldedDecides(e.lhs, nullness);
      FoldedDecides(e.rhs, nullness);
      if CanDecide(e.lhs) { FoldedAsked(e.rhs, nullness, names, g); }
      if CanDecide(e.rhs) { FoldedAsked(e.lhs, nullness, names, g); }
      FoldedOrAsked(e, l, r, names, g);
    } else if IsNot(e) {
      FoldedVars(e.arg, nullness);
      LiteralAsked(true, names, g);
      LiteralAsked(false, names, g);
    }
  }

  // ----- the folded plan -----

  lemma FoldAtShape(nodes: seq<LogicalOp>, i: nat, nullness: Nullness)
    requires Topological(nodes)
    ensures Topological(FoldAt(nodes, i, nullness))
    ensures forall k | 0 <= k < |nodes| :: Inputs(FoldAt(nodes, i, nullness)[k]) == Inputs(nodes[k])
  {
    InputsAgree(nodes, FoldAt(nodes, i, nullness));
  }

  lemma {:induction false} FoldProduces(nodes: seq<LogicalOp>, i: nat, nullness: Nullness, id: nat)
    requires Topological(nodes) && Topological(FoldAt(nodes, i, nullness)) && id < |nodes|
    ensures Produces(FoldAt(nodes, i, nullness), id) == Produces(nodes, id)
    decreases id
  {
    if nodes[id].Filter? {
      assert nodes[id].input in Inputs(nodes[id]) && InputsBelow(nodes[id], id);
      FoldProduces(nodes, i, nullness, nodes[id].input);
    }
  }

  lemma FoldAtScoped(nodes: seq<LogicalOp>, i: nat, nullness: Nullness)
    requires Topological(nodes) && Topological(FoldAt(nodes, i, nullness)) && WellScoped(nodes)
    ensures WellScoped(FoldAt(nodes, i, nullness))
  {
    var out := FoldAt(nodes, i, nullness);
    forall k | 0 <= k < |out| && out[k].Filter?
      ensures out[k].input < |out|
      ensures Produces(out, out[k].input).Some? ==> Free(out[k].pred) <= Produces(out, out[k].input).value
    {
      assert nodes[k].Filter? && nodes[k].input == out[k].input;
      FoldProduces(nodes, i, nullness, nodes[k].input);
      FoldedVars(nodes[k].pred, nullness);
    }
  }

  lemma FoldAtPlan(root: nat, nodes: seq<LogicalOp>, live: set<nat>, i: nat, nullness: Nullness)
    requires PlanOk(root, nodes, live) && WellScoped(nodes)
    ensures PlanOk(root, FoldAt(nodes, i, nullness), live) && WellScoped(FoldAt(nodes, i, nullness))
  {
    FoldAtShape(nodes, i, nullness);
    SameInputs(nodes, FoldAt(nodes, i, nullness), root, live);
    FoldAtScoped(nodes, i, nullness);
  }

  lemma FoldedPermits(nodes: seq<LogicalOp>, i: nat, nullness: Nullness, run: Run, x: Exec, arg: Row)
    requires Topological(nodes) && Topological(FoldAt(nodes, i, nullness)) && i < |nodes| && nodes[i].Filter?
    requires ParamFold.Right(nullness, x.env) && Ordered(nodes, i) == Ordered(FoldAt(nodes, i, nullness), i)
    requires Permits(FoldAt(nodes, i, nullness), run, i, x, arg)
    ensures Permits(nodes, run, i, x, arg)
  {
    var out := FoldAt(nodes, i, nullness);
    if out == nodes { return; }
    RowWisePermits(out, run, i, x, arg);
    RowWisePermits(nodes, run, i, x, arg);
    forall row ensures Eval(out[i].pred, row, x.env).Truthy() == Eval(nodes[i].pred, row, x.env).Truthy() {
      FoldKeepsTruth(nodes[i].pred, nullness, row, x.env);
    }
    SameFilter(nodes[i].input, out[i].pred, nodes[i].pred, run(nodes[i].input, arg), x);
  }

  /** A run of the folded plan is a run of the plan. */
  lemma FoldAtRun(root: nat, nodes: seq<LogicalOp>, live: set<nat>, i: nat, nullness: Nullness, run: Run, x: Exec)
    requires PlanOk(root, nodes, live) && ParamFold.Right(nullness, x.env)
    requires Topological(FoldAt(nodes, i, nullness)) && IsRun(FoldAt(nodes, i, nullness), live, run, x)
    ensures IsRun(nodes, live, run, x)
  {
    var out := FoldAt(nodes, i, nullness);
    if out != nodes {
      assert nodes[i].input in Inputs(nodes[i]) && InputsBelow(nodes[i], i);
      OrderedAgrees(nodes, out, nodes[i].input);
      if i in live {
        assert PermitsAll(out, run, i, x);
        forall arg ensures Permits(nodes, run, i, x, arg) { FoldedPermits(nodes, i, nullness, run, x, arg); }
        assert PermitsAll(nodes, run, i, x);
      }
      RegionRun(nodes, out, i, {}, live, live, run, run, x);
    }
  }

  lemma {:induction false} FoldKeepsPlan(
    root: nat, nodes: seq<LogicalOp>, live: set<nat>, i: nat, nullness: Nullness)
    requires PlanOk(root, nodes, live) && WellScoped(nodes)
    ensures PlanOk(root, FoldFrom(nodes, i, nullness), live) && WellScoped(FoldFrom(nodes, i, nullness))
    decreases |nodes| - i
  {
    if i < |nodes| {
      FoldAtPlan(root, nodes, live, i, nullness);
      FoldKeepsPlan(root, FoldAt(nodes, i, nullness), live, i + 1, nullness);
    }
  }

  /** And so for the whole pass. */
  lemma {:induction false} FoldRuns(
    root: nat, nodes: seq<LogicalOp>, live: set<nat>, i: nat, nullness: Nullness, run: Run, x: Exec)
    requires PlanOk(root, nodes, live) && WellScoped(nodes) && ParamFold.Right(nullness, x.env)
    requires Topological(FoldFrom(nodes, i, nullness)) && IsRun(FoldFrom(nodes, i, nullness), live, run, x)
    ensures IsRun(nodes, live, run, x)
    decreases |nodes| - i
  {
    if i < |nodes| {
      FoldAtPlan(root, nodes, live, i, nullness);
      FoldRuns(root, FoldAt(nodes, i, nullness), live, i + 1, nullness, run, x);
      FoldAtRun(root, nodes, live, i, nullness, run, x);
    }
  }

  // ----- what the clauses were asked -----

  lemma OneVarLess(e: Expr, less: Expr)
    requires OneVar(e) && Vars(less) <= Vars(e)
    ensures OneVar(less)
  {}

  lemma {:induction false} OneVarSole(e: Expr)
    requires OneVar(e)
    ensures SoleOr(e)
  {
    if IsAnd(e) {
      OneVarLess(e, e.lhs);
      OneVarLess(e, e.rhs);
      OneVarSole(e.lhs);
      OneVarSole(e.rhs);
    }
  }

  lemma {:induction false} FoldedSole(e: Expr, nullness: Nullness)
    requires SoleOr(e)
    ensures SoleOr(Folded(e, nullness))
  {
    if IsAnd(e) {
      FoldedSole(e.lhs, nullness);
      FoldedSole(e.rhs, nullness);
    } else if IsOr(e) {
      FoldedVars(e, nullness);
      OneVarLess(e, Folded(e, nullness));
      OneVarSole(Folded(e, nullness));
    }
  }

  lemma FoldAtAsked(nodes: seq<LogicalOp>, i: nat, nullness: Nullness, names: Names, most: nat, env: Env)
    requires ArenaAsked(nodes, names, most, env)
    ensures ArenaAsked(FoldAt(nodes, i, nullness), names, most, env)
  {
    var out := FoldAt(nodes, i, nullness);
    FoldAtShape(nodes, i, nullness);
    forall id | 0 <= id < |nodes| ensures SameWayAt(nodes[id], out[id]) {
      if out[id] != nodes[id] {
        FoldedVars(nodes[id].pred, nullness);
        if SoleOr(nodes[id].pred) { FoldedSole(nodes[id].pred, nullness); }
      }
    }
    SortsCarry(nodes, out, names);
    forall k | 0 <= k < |out| ensures OpAsked(out[k], names, most, env) {
      assert OpAsked(nodes[k], names, most, env);
      if out[k] != nodes[k] { FoldedAsked(nodes[k].pred, nullness, names, env.graph); }
    }
  }

  lemma {:induction false} FoldAllAsked(
    nodes: seq<LogicalOp>, i: nat, nullness: Nullness, names: Names, most: nat, env: Env)
    requires ArenaAsked(nodes, names, most, env)
    ensures ArenaAsked(FoldFrom(nodes, i, nullness), names, most, env)
    decreases |nodes| - i
  {
    if i < |nodes| {
      FoldAtAsked(nodes, i, nullness, names, most, env);
      FoldAllAsked(FoldAt(nodes, i, nullness), i + 1, nullness, names, most, env);
    }
  }

  // ====================
  // From clauses to the plan that runs: what it yields is an answer of the query as
  // written.

  /** What compiling is told: which parameters are null, what constant calls
      evaluate to, and what the passes are. */
  datatype Options = Options(nullness: Nullness, fold: Fold, advice: Advice, most: nat)

  /** The plan as it is run: null tests folded, optimized, constant calls
      folded. */
  function Physical(nodes: seq<LogicalOp>, k: Options): seq<LogicalOp>
    requires Topological(FoldFrom(nodes, 0, k.nullness))
  {
    FoldOpsFrom(Optimized(FoldFrom(nodes, 0, k.nullness), k.advice, k.most), 0, k.fold)
  }

  /** What the passes ask of the arenas they start from. */
  ghost predicate SitesFit(nodes: seq<LogicalOp>, advice: Advice, most: nat, x: Exec) {
    var pushed := PushFrom(nodes, 0);
    && Topological(nodes) && NodeSitesFit(pushed, x.env.graph)
    && RelSitesFit(SeekFrom(pushed, 0, advice), advice, x.env.graph)
    && SitesClean(Sought(nodes, advice), 0, advice.catalog, advice.round) && LimitSites(nodes, most, x.env)
  }

  /** What holds of every execution the plan is compiled for. */
  ghost predicate ExecFits(nodes: seq<LogicalOp>, k: Options, x: Exec) {
    && GroupColumns(x) && OrderExec(x) && Builtins(x.env) && Honest(k.fold, x.env) && GroupsByValue(x, k.fold)
    && RightWhereTested(nodes, k.nullness, x.env)
  }

  /** The query is planned as its clauses assume, and its plan is one the
      passes keep. */
  ghost predicate Compiles(cs: seq<QueryClause>, k: Options, x: Exec)
  {
    var nodes := PlanClauses([], None, cs).0;
    && ClausesFit(cs, {}, {}) && AllFromEitherEnd(cs, {}) && AllScoped(cs, {}) && ExecFits(nodes, k, x)
    && SitesFit(FoldFrom(nodes, 0, k.nullness), k.advice, k.most, x)
  }

  /** `out` is what the plan of the query yields. */
  ghost predicate CompiledRows(cs: seq<QueryClause>, k: Options, out: seq<Row>, x: Exec)
  {
    var (nodes, root) := PlanClauses([], None, cs);
    && Topological(FoldFrom(nodes, 0, k.nullness)) && Topological(Physical(nodes, k)) && root < |Physical(nodes, k)|
    && out == Denote(Physical(nodes, k), root, x, map[])
  }

  /** The query compiles where its clauses are as asked, whatever the catalog
      and the cost model. */
  lemma CompilesAsked(cs: seq<QueryClause>, names: Names, k: Options, x: Exec)
    requires ClausesFit(cs, {}, {}) && AllFromEitherEnd(cs, {}) && AllScoped(cs, {})
    requires ClausesAsked(cs, Clear(), names, k.most, x.env) && ExecFits(PlanClauses([], None, cs).0, k, x)
    ensures Compiles(cs, k, x)
  {
    var (nodes, root) := PlanClauses([], None, cs);
    QueryPlanned(cs, names, k.most, x);
    QueryScoped(cs);
    FoldKeepsPlan(root, nodes, Below(|nodes|), 0, k.nullness);
    FoldAllAsked(nodes, 0, k.nullness, names, k.most, x.env);
    SitesAsked(root, FoldFrom(nodes, 0, k.nullness), Below(|nodes|), k.advice, names, k.most, x);
  }

  /** From a plan to the one that runs: its rows are some the plan may have. */
  lemma PhysicalRun(root: nat, nodes: seq<LogicalOp>, k: Options, x: Exec) returns (before: Run)
    requires PlanOk(root, nodes, Below(|nodes|)) && WellScoped(nodes) && ExecFits(nodes, k, x)
    requires SitesFit(FoldFrom(nodes, 0, k.nullness), k.advice, k.most, x)
    ensures IsRun(nodes, Below(|nodes|), before, x)
    ensures Topological(Physical(nodes, k)) && root < |Physical(nodes, k)|
    ensures forall arg :: before(root, arg) == Denote(Physical(nodes, k), root, x, arg)
  {
    var live, folded := Below(|nodes|), FoldFrom(nodes, 0, k.nullness);
    var known := KnownWhereTested(nodes, k.nullness, x.env);
    FoldKeepsPlan(root, nodes, live, 0, known);
    before := OptimizedExecution(root, folded, live, k.advice, k.most, x);
    FoldRuns(root, nodes, live, 0, known, before, x);
    FoldOpsKeepRows(Optimized(folded, k.advice, k.most), 0, k.fold, root, x);
  }

  lemma CompiledRun(cs: seq<QueryClause>, k: Options, x: Exec) returns (out: seq<Row>)
    requires Compiles(cs, k, x)
    ensures CompiledRows(cs, k, out, x) && Answer(cs, true, [map[]], out, x)
  {
    var (nodes, root) := PlanClauses([], None, cs);
    QueryScoped(cs);
    var before := PhysicalRun(root, nodes, k, x);
    QueryAnswered(cs, before, x);
    out := before(root, map[]);
  }

  /** Every query, planned from whatever ends the cost model chose, folded and
      put through every pass, yields an answer of the query as written. */
  lemma CompiledQuery(cs: seq<QueryClause>, k: Options, x: Exec) returns (out: seq<Row>)
    requires Compiles(cs, k, x)
    ensures CompiledRows(cs, k, out, x) && Answer(AllAsWritten(cs), true, [map[]], out, x)
  {
    out := CompiledRun(cs, k, x);
    AnswersAsWritten(cs, true, [map[]], out, {}, {}, x);
  }

  /** Where nothing depends on the order of rows, those are the rows of the
      query as written, each as often. */
  lemma CompiledOrderless(cs: seq<QueryClause>, k: Options, x: Exec) returns (out: seq<Row>)
    requires Compiles(cs, k, x) && AllOrderless(AllAsWritten(cs), x)
    ensures CompiledRows(cs, k, out, x) && Perm(out, RunClauses(AllAsWritten(cs), [map[]], x))
  {
    out := CompiledQuery(cs, k, x);
    OneAnswer(AllAsWritten(cs), true, [map[]], [map[]], out, x);
  }

  /** Where only a last RETURN does, because it counts rows or collects them,
      those are what it makes of the rows of the others as written, in some
      order `rows`; and in any, where its grouping does not see it. */
  lemma CompiledTopN(cs: seq<QueryClause>, c: Clause, k: Options, x: Exec) returns (out: seq<Row>, rows: seq<Row>)
    requires AllOrderless(AllAsWritten(cs), x)
    requires Compiles(cs + [ReturnClause(c)], k, x)
    ensures CompiledRows(cs + [ReturnClause(c)], k, out, x)
    ensures Perm(rows, RunClauses(AllAsWritten(cs), [map[]], x))
    ensures ColumnsAnswer(c, AllOrderedAfter(AllAsWritten(cs), true), rows, out, x)
    ensures Blind(c, x) ==> ColumnsAnswer(c, false, RunClauses(AllAsWritten(cs), [map[]], x), out, x)
  {
    out := CompiledQuery(cs + [ReturnClause(c)], k, x);
    WrittenLast(cs, ReturnClause(c));
    rows := LastAnswer(AllAsWritten(cs), c, [map[]], out, x);
  }

  /** Directly after WITH ... ORDER BY the last clause, grouping or not, is
      given the rows in order of the keys, whatever became of the sort. */
  lemma CompiledAfterSort(
    cs: seq<QueryClause>, w: Clause, where: Option<Expr>, c: Clause, k: Options, x: Exec)
    returns (out: seq<Row>, prior: seq<Row>, list: seq<Row>)
    requires w.order != []
    requires Compiles(cs + [WithClause(w, where)] + [ReturnClause(c)], k, x)
    ensures CompiledRows(cs + [WithClause(w, where)] + [ReturnClause(c)], k, out, x)
    ensures AfterSort(AllAsWritten(cs), w, where, c, [map[]], prior, list, out, x)
  {
    out := CompiledQuery(cs + [WithClause(w, where)] + [ReturnClause(c)], k, x);
    WrittenLast(cs + [WithClause(w, where)], ReturnClause(c));
    WrittenLast(cs, WithClause(w, where));
    prior, list := SortedThen(AllAsWritten(cs), w, where, c, [map[]], out, x);
  }

  /** `... WITH ... ORDER BY key RETURN ..., collect(key)` yields, for every
      group, the list in order of the key. */
  lemma CompiledCollect(
    cs: seq<QueryClause>, w: Clause, where: Option<Expr>, c: Clause, v: VarId, k: Options, x: Exec)
    returns (out: seq<Row>)
    requires w.order != [] && KeyKept(w, w.order[0])
    requires Collects(c, w.order[0].expr, v, x)
    requires Compiles(cs + [WithClause(w, where)] + [ReturnClause(c)], k, x)
    ensures CompiledRows(cs + [WithClause(w, where)] + [ReturnClause(c)], k, out, x)
    ensures forall r: Row | r in out :: v in r && r[v].List? && ValuesInOrder(w.order[0], r[v].items, x.le)
  {
    var prior, list;
    out, prior, list := CompiledAfterSort(cs, w, where, c, k, x);
    forall r: Row | r in out ensures v in r && r[v].List? && ValuesInOrder(w.order[0], r[v].items, x.le) {
      CollectsSorted(AllAsWritten(cs), w, where, c, v, [map[]], prior, list, out, r, x);
    }
  }
}
