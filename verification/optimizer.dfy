/** The optimizer as it runs: passes that loop over the arena and overwrite
    its nodes, and what the pipeline keeps. */
module Optimizing {
  import opened Values
  import opened Expressions
  import opened Sorting
  import opened Logical
  import opened Arena
  import opened Walks
  import opened Runs
  import opened FilterPush
  import opened RangeBounds
  import opened Accesses
  import opened NodeSeeks
  import opened RelSeeks
  import opened SortOrder
  import opened OrderPass
  import opened TopK

  lemma {:induction false} PushTopological(nodes: seq<LogicalOp>, i: nat)
    requires Topological(nodes)
    ensures Topological(PushFrom(nodes, i))
    decreases |nodes| - i
  {
    if i < |nodes| {
      PushAtTopological(nodes, i);
      PushTopological(PushAt(nodes, i), i + 1);
    }
  }

  lemma PushAtTopological(nodes: seq<LogicalOp>, i: nat)
    requires Topological(nodes)
    ensures Topological(PushAt(nodes, i))
  {
    InputsAgree(nodes, PushAt(nodes, i));
  }

  lemma {:induction false} SeekTopological(nodes: seq<LogicalOp>, i: nat, advice: Advice)
    requires Topological(nodes)
    ensures Topological(SeekFrom(nodes, i, advice))
    decreases |nodes| - i
  {
    if i < |nodes| {
      SeekAtTopological(nodes, i, advice);
      SeekTopological(SeekAt(nodes, i, advice), i + 1, advice);
    }
  }

  lemma SeekAtTopological(nodes: seq<LogicalOp>, i: nat, advice: Advice)
    requires Topological(nodes)
    ensures Topological(SeekAt(nodes, i, advice))
  {
    InputsAgree(nodes, SeekAt(nodes, i, advice));
  }

  lemma RelSeekAtAbove(nodes: seq<LogicalOp>, i: nat, advice: Advice)
    requires Topological(nodes)
    ensures Topological(RelSeekAt(nodes, i, advice))
  {
    var out := RelSeekAt(nodes, i, advice);
    if out != nodes {
      var m := nodes[i].input;
      var j := nodes[m].input;
      assert InputsBelow(nodes[m], m) && j in Inputs(nodes[m]) && InputsBelow(nodes[j], j);
      assert Inputs(out[m]) == Inputs(nodes[j]);
      forall k | 0 <= k < |out| ensures InputsBelow(out[k], k) { assert InputsBelow(nodes[k], k); }
    }
  }

  lemma {:induction false} RelSeekTopological(nodes: seq<LogicalOp>, i: nat, advice: Advice)
    requires Topological(nodes)
    ensures Topological(RelSeekFrom(nodes, i, advice))
    decreases |nodes| - i
  {
    if i < |nodes| {
      RelSeekAtAbove(nodes, i, advice);
      RelSeekTopological(RelSeekAt(nodes, i, advice), i + 1, advice);
    }
  }

  /** The arena after the first three passes. */
  function Sought(nodes: seq<LogicalOp>, advice: Advice): (out: seq<LogicalOp>)
    requires Topological(nodes)
    ensures |out| == |nodes| && Topological(out)
  {
    PushTopological(nodes, 0);
    SeekTopological(PushFrom(nodes, 0), 0, advice);
    RelSeekTopological(SeekFrom(PushFrom(nodes, 0), 0, advice), 0, advice);
    RelSeekFrom(SeekFrom(PushFrom(nodes, 0), 0, advice), 0, advice)
  }

  /** After every pass but the last. */
  function Served(nodes: seq<LogicalOp>, advice: Advice): (out: seq<LogicalOp>)
    requires Topological(nodes)
    ensures |out| == |nodes|
  {
    OrderFrom(Sought(nodes, advice), 0, advice.catalog, advice.round)
  }

  /** The arena after every pass. */
  function Optimized(nodes: seq<LogicalOp>, advice: Advice, most: nat): (out: seq<LogicalOp>)
    requires Topological(nodes)
    ensures |out| == |nodes|
  {
    AnnotateFrom(Served(nodes, advice), 0, most)
  }

  class LogicalPlan {
    const root: nat
    var nodes: seq<LogicalOp>

    constructor (root: nat, nodes: seq<LogicalOp>)
      ensures this.root == root && this.nodes == nodes
    {
      this.root, this.nodes := root, nodes;
    }

    method PushFilterBelowProjection()
      modifies this
      ensures nodes == PushFrom(old(nodes), 0)
    {
      for i := 0 to |nodes|
        invariant |nodes| == |old(nodes)|
        invariant PushFrom(nodes, i) == PushFrom(old(nodes), 0)
      {
        ghost var before := nodes;
        if nodes[i].Filter? && nodes[i].input < |nodes| && nodes[i].input != i
           && CanPush(nodes[i], nodes[nodes[i].input])
        {
          var j, pred := nodes[i].input, nodes[i].pred;
          var items, k := nodes[j].items, nodes[j].input;
          nodes := nodes[j := Filter(k, pred)];
          nodes := nodes[i := Projection(j, false, items, false)];
        }
        assert nodes == PushAt(before, i);
      }
    }

    method UseIndexedNodeScans(advice: Advice)
      modifies this
      ensures nodes == SeekFrom(old(nodes), 0, advice)
    {
      for i := 0 to |nodes|
        invariant |nodes| == |old(nodes)|
        invariant SeekFrom(nodes, i, advice) == SeekFrom(old(nodes), 0, advice)
      {
        ghost var before := nodes;
        if nodes[i].Filter? && nodes[i].input < |nodes| && nodes[nodes[i].input].NodeScan? {
          var j := nodes[i].input;
          var access := NodeAccess(nodes[j], nodes[i].pred, i, advice);
          if access.Some? { nodes := nodes[j := SeekFor(nodes[j], access.value)]; }
        }
        assert nodes == SeekAt(before, i, advice);
      }
    }

    method UseIndexedRelScans(advice: Advice)
      modifies this
      ensures nodes == RelSeekFrom(old(nodes), 0, advice)
    {
      for i := 0 to |nodes|
        invariant |nodes| == |old(nodes)|
        invariant RelSeekFrom(nodes, i, advice) == RelSeekFrom(old(nodes), 0, advice)
      {
        ghost var before := nodes;
        if IsRelSite(nodes, i) {
          var m := nodes[i].input;
          var scan := nodes[nodes[m].input];
          var access := RelAccess(scan, nodes[m], nodes[i].pred, i, advice);
          if access.Some? { nodes := nodes[m := RelSeekFor(scan, nodes[m], access.value)]; }
        }
        assert nodes == RelSeekAt(before, i, advice);
      }
    }

    /** Walks down from a sort to the scan that could serve it. */
    method FindScan(i: nat) returns (found: Option<Descent>)
      requires Topological(nodes) && i < |nodes| && nodes[i].Sort? && nodes[i].keys != []
      requires nodes[i].input < |nodes|
      ensures found == Descend(nodes, nodes[i].input, nodes[i].keys[0].expr, [])
    {
      var cursor, key, preds: seq<Expr> := nodes[i].input, nodes[i].keys[0].expr, [];
      while true
        invariant 0 <= cursor < |nodes|
        invariant Descend(nodes, cursor, key, preds)
               == Descend(nodes, nodes[i].input, nodes[i].keys[0].expr, [])
        decreases cursor
      {
        var op := nodes[cursor];
        if op.Projection? && !op.distinct {
          assert op.input in Inputs(op) && InputsBelow(op, cursor);
          key, cursor := ResolveAlias(key, op.items), op.input;
        } else if op.Filter? {
          assert op.input in Inputs(op) && InputsBelow(op, cursor);
          preds, cursor := preds + [op.pred], op.input;
        } else if op.NodeScan? || (op.NodeSeek? && op.access.ByRange?) {
          return Some(Descent(cursor, key, preds));
        } else {
          return None;
        }
      }
    }

    /** One sort: overwrites its scan and the sort where the scan can serve it. */
    method ServeSort(i: nat, catalog: Catalog, round: Rounding)
      requires Topological(nodes) && i < |nodes|
      modifies this
      ensures nodes == OrderAt(old(nodes), i, catalog, round)
    {
      if nodes[i].Sort? && nodes[i].keys != [] && nodes[i].presorted == 0 && nodes[i].input < |nodes| {
        var sort := nodes[i];
        var found := FindScan(i);
        if found.Some? && found.value.scan < |nodes| {
          var d := found.value;
          var scan := OrderedScan(nodes[d.scan], d.key, d.preds, sort.keys[0], catalog, round);
          if scan.Some? {
            nodes := nodes[d.scan := scan.value];
            if |sort.keys| == 1 {
              nodes := nodes[i := Projection(sort.input, false, [], true)];
            } else {
              nodes := nodes[i := Sort(sort.input, sort.keys, sort.topK, sort.bound, 1)];
            }
          }
        }
      }
    }

    method UseIndexOrderForSorts(catalog: Catalog, round: Rounding)
      requires Topological(nodes)
      modifies this
      ensures nodes == OrderFrom(old(nodes), 0, catalog, round)
    {
      for i := 0 to |nodes|
        invariant |nodes| == |old(nodes)| && Topological(nodes)
        invariant OrderFrom(nodes, i, catalog, round) == OrderFrom(old(nodes), 0, catalog, round)
      {
        OrderAtInputs(nodes, i, catalog, round);
        ServeSort(i, catalog, round);
      }
    }

    method AnnotateTopKSorts(most: nat)
      modifies this
      ensures nodes == AnnotateFrom(old(nodes), 0, most)
    {
      for i := 0 to |nodes|
        invariant |nodes| == |old(nodes)|
        invariant AnnotateFrom(nodes, i, most) == AnnotateFrom(old(nodes), 0, most)
      {
        ghost var before := nodes;
        if nodes[i].Limit? && nodes[i].input < |nodes| && nodes[nodes[i].input].Sort? {
          var j, skip, limit := nodes[i].input, nodes[i].skip, nodes[i].limit;
          var bound := StaticBound(skip, limit, most);
          if bound.Some? {
            nodes := nodes[j := nodes[j].(topK := Some(Smaller(nodes[j].topK, bound.value)))];
          } else if limit.Some? && nodes[j].bound.None? {
            nodes := nodes[j := nodes[j].(bound := Some(SortLimit(skip, limit.value)))];
          }
        }
        assert nodes == AnnotateAt(before, i, most);
      }
    }

    /** The pipeline. */
    method Optimize(advice: Advice, most: nat)
      requires Topological(nodes)
      modifies this
      ensures nodes == Optimized(old(nodes), advice, most)
    {
      ghost var sought := Sought(nodes, advice);
      PushFilterBelowProjection();
      UseIndexedNodeScans(advice);
      UseIndexedRelScans(advice);
      UseIndexOrderForSorts(advice.catalog, advice.round);
      AnnotateTopKSorts(most);
    }
  }

  // ----- what the passes leave of the plan -----

  /** Every LIMIT of `b` is one of `a`, and every sort was one. */
  ghost predicate NoNewCounts(a: seq<LogicalOp>, b: seq<LogicalOp>) {
    |a| == |b| && forall k | 0 <= k < |a| :: (b[k].Limit? ==> a[k] == b[k]) && (b[k].Sort? ==> a[k].Sort?)
  }

  lemma {:induction false} PushCounts(nodes: seq<LogicalOp>, i: nat)
    ensures NoNewCounts(nodes, PushFrom(nodes, i))
    decreases |nodes| - i
  {
    if i < |nodes| { PushCounts(PushAt(nodes, i), i + 1); }
  }

  lemma {:induction false} SeekCounts(nodes: seq<LogicalOp>, i: nat, advice: Advice)
    ensures NoNewCounts(nodes, SeekFrom(nodes, i, advice))
    decreases |nodes| - i
  {
    if i < |nodes| { SeekCounts(SeekAt(nodes, i, advice), i + 1, advice); }
  }

  lemma RelSeekAtCounts(nodes: seq<LogicalOp>, i: nat, advice: Advice)
    ensures NoNewCounts(nodes, RelSeekAt(nodes, i, advice))
  {}

  lemma {:induction false} RelSeekCounts(nodes: seq<LogicalOp>, i: nat, advice: Advice)
    ensures NoNewCounts(nodes, RelSeekFrom(nodes, i, advice))
    decreases |nodes| - i
  {
    if i < |nodes| {
      RelSeekAtCounts(nodes, i, advice);
      var next := RelSeekAt(nodes, i, advice);
      RelSeekCounts(next, i + 1, advice);
      CountsThrough(nodes, next, RelSeekFrom(next, i + 1, advice));
    }
  }

  lemma OrderAtCounts(nodes: seq<LogicalOp>, i: nat, catalog: Catalog, round: Rounding)
    requires Topological(nodes)
    ensures NoNewCounts(nodes, OrderAt(nodes, i, catalog, round))
  {}

  lemma {:induction false} OrderCounts(nodes: seq<LogicalOp>, i: nat, catalog: Catalog, round: Rounding)
    requires Topological(nodes)
    ensures NoNewCounts(nodes, OrderFrom(nodes, i, catalog, round))
    decreases |nodes| - i
  {
    if i < |nodes| {
      var next := OrderAt(nodes, i, catalog, round);
      OrderAtInputs(nodes, i, catalog, round);
      assert OrderFrom(nodes, i, catalog, round) == OrderFrom(next, i + 1, catalog, round);
      OrderAtCounts(nodes, i, catalog, round);
      OrderCounts(next, i + 1, catalog, round);
      CountsThrough(nodes, next, OrderFrom(next, i + 1, catalog, round));
    }
  }

  lemma CountsThrough(a: seq<LogicalOp>, b: seq<LogicalOp>, c: seq<LogicalOp>)
    requires NoNewCounts(a, b) && NoNewCounts(b, c)
    ensures NoNewCounts(a, c)
  {}

  lemma CountsFit(a: seq<LogicalOp>, b: seq<LogicalOp>, most: nat, env: Env)
    requires NoNewCounts(a, b) && LimitSites(a, most, env)
    ensures LimitSites(b, most, env)
  {
    forall k | 0 <= k < |b| ensures LimitSite(b, k, most, env) { assert LimitSite(a, k, most, env); }
  }

  /** No pass before the last makes a LIMIT that could lose rows. */
  lemma LimitsStayFit(nodes: seq<LogicalOp>, advice: Advice, most: nat, env: Env)
    requires Topological(nodes) && LimitSites(nodes, most, env)
    ensures LimitSites(Served(nodes, advice), most, env)
  {
    var pushed := PushFrom(nodes, 0);
    var seeked := SeekFrom(pushed, 0, advice);
    var sought := Sought(nodes, advice);
    PushCounts(nodes, 0);
    CountsFit(nodes, pushed, most, env);
    SeekCounts(pushed, 0, advice);
    CountsFit(pushed, seeked, most, env);
    RelSeekCounts(seeked, 0, advice);
    CountsFit(seeked, sought, most, env);
    OrderCounts(sought, 0, advice.catalog, advice.round);
    CountsFit(sought, Served(nodes, advice), most, env);
  }

  // ----- what the pipeline keeps -----

  /** The conditions of the passes, each on the arena it starts from. */
  ghost predicate PipelineFits(nodes: seq<LogicalOp>, advice: Advice, most: nat, x: Exec)
    requires Topological(nodes)
  {
    var pushed := PushFrom(nodes, 0);
    var seeked := SeekFrom(pushed, 0, advice);
    && WellScoped(nodes) && NodeSitesFit(pushed, x.env.graph) && RelSitesFit(seeked, advice, x.env.graph)
    && SitesClean(Sought(nodes, advice), 0, advice.catalog, advice.round) && LimitSites(nodes, most, x.env)
  }

  /** The nodes in use after the relationship seeks. */
  ghost function LiveAfter(nodes: seq<LogicalOp>, advice: Advice, live: set<nat>): set<nat> {
    RelLive(SeekFrom(PushFrom(nodes, 0), 0, advice), 0, advice, live)
  }

  /** After the first three passes the plan is still one, and every run of it
      is a run of the plan before them. */
  lemma SoughtPlan(root: nat, nodes: seq<LogicalOp>, live: set<nat>, advice: Advice, most: nat, x: Exec)
    requires PlanOk(root, nodes, live) && PipelineFits(nodes, advice, most, x)
    ensures PlanOk(root, PushFrom(nodes, 0), live) && PlanOk(root, SeekFrom(PushFrom(nodes, 0), 0, advice), live)
    ensures PlanOk(root, Sought(nodes, advice), LiveAfter(nodes, advice, live))
  {
    var pushed := PushFrom(nodes, 0);
    PushKeepsPlan(root, nodes, live, 0);
    SeekKeepsPlan(root, pushed, live, 0, advice, x.env.graph);
    RelSeekKeepsPlan(root, SeekFrom(pushed, 0, advice), live, 0, advice, x.env.graph);
  }

  lemma SoughtRun(
    root: nat, nodes: seq<LogicalOp>, live: set<nat>, advice: Advice, most: nat, run: Run, x: Exec)
    returns (before: Run)
    requires PlanOk(root, nodes, live) && PipelineFits(nodes, advice, most, x) && ExecValid(x) && Builtins(x.env)
    requires IsRun(Sought(nodes, advice), LiveAfter(nodes, advice, live), run, x)
    ensures IsRun(nodes, live, before, x) && forall arg :: before(root, arg) == run(root, arg)
  {
    var pushed := PushFrom(nodes, 0);
    var seeked := SeekFrom(pushed, 0, advice);
    SoughtPlan(root, nodes, live, advice, most, x);
    var third := RelSeekRuns(root, seeked, live, 0, advice, run, x);
    var second := SeekRuns(root, pushed, live, 0, advice, third, x);
    before := PushRuns(root, nodes, live, 0, second, x);
  }

  lemma OptimizedPlan(root: nat, nodes: seq<LogicalOp>, live: set<nat>, advice: Advice, most: nat, x: Exec)
    requires PlanOk(root, nodes, live) && PipelineFits(nodes, advice, most, x)
    ensures PlanOk(root, Served(nodes, advice), LiveAfter(nodes, advice, live))
    ensures PlanOk(root, Optimized(nodes, advice, most), LiveAfter(nodes, advice, live))
  {
    var live' := LiveAfter(nodes, advice, live);
    SoughtPlan(root, nodes, live, advice, most, x);
    OrderKeepsPlan(root, Sought(nodes, advice), live', 0, advice.catalog, advice.round);
    LimitsStayFit(nodes, advice, most, x.env);
    AnnotateKeepsPlan(root, Served(nodes, advice), live', 0, most, x.env);
  }

  /** The whole pipeline: a run of the optimized plan is one the plan as it
      was planned allows, with the same rows at the root. */
  lemma OptimizedRuns(
    root: nat, nodes: seq<LogicalOp>, live: set<nat>, advice: Advice, most: nat, run: Run, x: Exec)
    returns (before: Run)
    requires PlanOk(root, nodes, live) && PipelineFits(nodes, advice, most, x) && OrderExec(x) && Builtins(x.env)
    requires Topological(Optimized(nodes, advice, most))
    requires IsRun(Optimized(nodes, advice, most), LiveAfter(nodes, advice, live), run, x)
    ensures IsRun(nodes, live, before, x) && forall arg :: before(root, arg) == run(root, arg)
  {
    var live' := LiveAfter(nodes, advice, live);
    OptimizedPlan(root, nodes, live, advice, most, x);
    SoughtPlan(root, nodes, live, advice, most, x);
    LimitsStayFit(nodes, advice, most, x.env);
    var served := AnnotateRuns(root, Served(nodes, advice), live', 0, most, run, x);
    var sought := OrderRuns(root, Sought(nodes, advice), live', 0, advice.catalog, advice.round, served, x);
    before := SoughtRun(root, nodes, live, advice, most, sought, x);
  }

  /** So what the optimized plan yields when it is executed, the plan as
      planned may yield. */
  lemma OptimizedExecution(
    root: nat, nodes: seq<LogicalOp>, live: set<nat>, advice: Advice, most: nat, x: Exec) returns (before: Run)
    requires PlanOk(root, nodes, live) && PipelineFits(nodes, advice, most, x) && OrderExec(x) && Builtins(x.env)
    ensures PlanOk(root, Optimized(nodes, advice, most), LiveAfter(nodes, advice, live))
    ensures IsRun(nodes, live, before, x)
    ensures forall arg :: before(root, arg) == Denote(Optimized(nodes, advice, most), root, x, arg)
  {
    OptimizedPlan(root, nodes, live, advice, most, x);
    var out := Optimized(nodes, advice, most);
    ExactIsRun(out, LiveAfter(nodes, advice, live), x);
    before := OptimizedRuns(root, nodes, live, advice, most, Exactly(out, x), x);
  }

  /** Where nothing counts rows or sees their order, those are the rows of the
      plan as planned, each as often. */
  lemma OptimizedKeepsRows(
    root: nat, nodes: seq<LogicalOp>, live: set<nat>, advice: Advice, most: nat, x: Exec)
    requires PlanOk(root, nodes, live) && PipelineFits(nodes, advice, most, x) && OrderExec(x) && Builtins(x.env)
    requires NothingCounts(nodes, x)
    ensures PlanOk(root, Optimized(nodes, advice, most), LiveAfter(nodes, advice, live))
    ensures PermRows(nodes, Optimized(nodes, advice, most), root, x)
  {
    var before := OptimizedExecution(root, nodes, live, advice, most, x);
    forall arg ensures Perm(Denote(nodes, root, x, arg), Denote(Optimized(nodes, advice, most), root, x, arg)) {
      UncountedRun(root, nodes, live, before, root, x, arg);
    }
  }
}
