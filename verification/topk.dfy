/** A sort under a LIMIT keeps only the rows the LIMIT can reach. */
module TopK {
  import opened Values
  import opened Expressions
  import opened Sorting
  import opened Logical
  import opened Arena
  import opened Runs
  import opened FilterPush

  /** A literal row count: negative ones read as 0, large ones saturate at the
      largest size `most`. */
  function StaticCount(e: Expr, most: nat): Option<nat> {
    if !e.Literal? || !e.value.Int? then None
    else
      var n := e.value.number;
      Some(if n < 0 then 0 else if n > most then most else n)
  }

  /** SKIP plus LIMIT, saturating, when LIMIT is a literal; a SKIP that is not
      counts for nothing. */
  function StaticBound(skip: Option<Expr>, limit: Option<Expr>, most: nat): Option<nat> {
    if limit.None? || StaticCount(limit.value, most).None? then None
    else
      var rows := StaticCount(limit.value, most).value;
      var skipped := if skip.Some? && StaticCount(skip.value, most).Some?
                     then StaticCount(skip.value, most).value else 0;
      Some(if skipped + rows > most then most else skipped + rows)
  }

  function Smaller(a: Option<nat>, b: nat): nat {
    match a case None => b case Some(n) => if n < b then n else b
  }

  function Annotated(sort: LogicalOp, skip: Option<Expr>, limit: Option<Expr>, most: nat): LogicalOp
    requires sort.Sort?
  {
    match StaticBound(skip, limit, most)
    case Some(k) => sort.(topK := Some(Smaller(sort.topK, k)))
    case None =>
      if limit.Some? && sort.bound.None? then sort.(bound := Some(SortLimit(skip, limit.value))) else sort
  }

  function AnnotateAt(nodes: seq<LogicalOp>, i: nat, most: nat): (out: seq<LogicalOp>)
    ensures |out| == |nodes|
  {
    if i < |nodes| && nodes[i].Limit? && nodes[i].input < |nodes| && nodes[nodes[i].input].Sort? then
      nodes[nodes[i].input := Annotated(nodes[nodes[i].input], nodes[i].skip, nodes[i].limit, most)]
    else nodes
  }

  function AnnotateFrom(nodes: seq<LogicalOp>, i: nat, most: nat): (out: seq<LogicalOp>)
    ensures |out| == |nodes|
    decreases |nodes| - i
  {
    if i >= |nodes| then nodes else AnnotateFrom(AnnotateAt(nodes, i, most), i + 1, most)
  }

  // ----- rows -----

  function SkipCount(skip: Option<Expr>, env: Env): nat {
    if skip.Some? then Count(skip.value, env) else 0
  }

  /** Dropping rows the LIMIT does not reach leaves what it yields. */
  lemma LimitOfTake(rows: seq<Row>, k: nat, skip: Option<Expr>, limit: Option<Expr>, env: Env)
    requires limit.Some? && SkipCount(skip, env) + Count(limit.value, env) <= k
    ensures LimitRows(Take(rows, k), skip, limit, env) == LimitRows(rows, skip, limit, env)
  {}

  /** The annotated sort yields the first rows of the plain one, in whatever
      order `list` they come. */
  lemma AnnotatedCut(
    sort: LogicalOp, skip: Option<Expr>, limit: Option<Expr>, most: nat, list: seq<Row>, env: Env)
    requires sort.Sort?
    ensures var out, before := Annotated(sort, skip, limit, most), Cut(list, SortBound(sort.topK, sort.bound, env));
      Cut(list, SortBound(out.topK, out.bound, env)) ==
        match StaticBound(skip, limit, most)
        case Some(k) => Take(before, k)
        case None =>
          if out != sort && Eval(limit.value, map[], env).Int?
          then Take(before, Count(limit.value, env) + SkipCount(skip, env))
          else before
  {}

  function SortedRows(keys: seq<SortKey>, presorted: nat, rows: seq<Row>, x: Exec): seq<Row> {
    if 0 < presorted <= |keys| then PartialSort(keys, presorted, rows, x.env, x.le)
    else StableSort(keys, rows, x.env, x.le)
  }

  lemma SortRowsCut(sort: LogicalOp, rows: seq<Row>, x: Exec)
    requires sort.Sort?
    ensures SortRows(sort, rows, x)
         == Cut(SortedRows(sort.keys, sort.presorted, rows, x), SortBound(sort.topK, sort.bound, x.env))
  {}

  /** The static bound counts every row SKIP passes over: SKIP is absent or a
      literal, or LIMIT is not a literal, or takes nothing, or SKIP is 0. */
  predicate SkipCounted(skip: Option<Expr>, limit: Option<Expr>, most: nat, env: Env) {
    || skip.None? || StaticCount(skip.value, most).Some?
    || limit.None? || StaticCount(limit.value, most).None?
    || StaticCount(limit.value, most) == Some(0)
    || Count(skip.value, env) == 0
  }

  lemma StaticCountIsCount(e: Expr, most: nat, env: Env)
    requires StaticCount(e, most).Some?
    ensures StaticCount(e, most).value == if Count(e, env) > most then most else Count(e, env)
  {}

  /** A bound that saturated keeps the largest size of rows, so there must be
      no more; any other bound keeps enough however many there are. */
  predicate BoundFits(skip: Option<Expr>, limit: Option<Expr>, most: nat, n: nat) {
    StaticBound(skip, limit, most) == Some(most) ==> n <= most
  }

  /** What SKIP and LIMIT leave of the annotated sort's rows they leave of the
      plain one's. */
  lemma LimitOfCut(
    sort: LogicalOp, skip: Option<Expr>, limit: Option<Expr>, most: nat, list: seq<Row>, env: Env)
    requires sort.Sort? && BoundFits(skip, limit, most, |Cut(list, SortBound(sort.topK, sort.bound, env))|)
    requires SkipCounted(skip, limit, most, env)
    ensures var out := Annotated(sort, skip, limit, most);
      LimitRows(Cut(list, SortBound(out.topK, out.bound, env)), skip, limit, env)
      == LimitRows(Cut(list, SortBound(sort.topK, sort.bound, env)), skip, limit, env)
  {
    var before := Cut(list, SortBound(sort.topK, sort.bound, env));
    AnnotatedCut(sort, skip, limit, most, list, env);
    if StaticBound(skip, limit, most).Some? {
      StaticTake(before, skip, limit, most, env);
    } else if limit.Some? {
      LimitOfTake(before, Count(limit.value, env) + SkipCount(skip, env), skip, limit, env);
    }
  }

  lemma LimitOfAnnotated(
    sort: LogicalOp, skip: Option<Expr>, limit: Option<Expr>, most: nat, rows: seq<Row>, x: Exec)
    requires sort.Sort? && BoundFits(skip, limit, most, |SortRows(sort, rows, x)|)
    requires SkipCounted(skip, limit, most, x.env)
    ensures LimitRows(SortRows(Annotated(sort, skip, limit, most), rows, x), skip, limit, x.env)
         == LimitRows(SortRows(sort, rows, x), skip, limit, x.env)
  {
    SortRowsCut(sort, rows, x);
    SortRowsCut(Annotated(sort, skip, limit, most), rows, x);
    LimitOfCut(sort, skip, limit, most, SortedRows(sort.keys, sort.presorted, rows, x), x.env);
  }

  /** Keeping as many rows as the static bound says leaves what SKIP and LIMIT
      yield, when SKIP is counted. */
  lemma StaticTake(rows: seq<Row>, skip: Option<Expr>, limit: Option<Expr>, most: nat, env: Env)
    requires StaticBound(skip, limit, most).Some? && SkipCounted(skip, limit, most, env)
    requires BoundFits(skip, limit, most, |rows|)
    ensures LimitRows(Take(rows, StaticBound(skip, limit, most).value), skip, limit, env)
         == LimitRows(rows, skip, limit, env)
  {
    var k := StaticBound(skip, limit, most).value;
    StaticCountIsCount(limit.value, most, env);
    if skip.Some? && StaticCount(skip.value, most).Some? { StaticCountIsCount(skip.value, most, env); }
    if k < most && Count(limit.value, env) > 0 { LimitOfTake(rows, k, skip, limit, env); }
  }

  /** And only then: with a counted LIMIT of at least one row and a SKIP that
      is not a literal and passes over rows, enough rows show the loss. */
  lemma TopKIff(skip: Option<Expr>, limit: Option<Expr>, most: nat, env: Env)
    requires StaticBound(skip, limit, most).Some?
    requires SkipCount(skip, env) + Count(limit.value, env) <= most
    ensures (forall rows: seq<Row> | |rows| <= most ::
        LimitRows(Take(rows, StaticBound(skip, limit, most).value), skip, limit, env)
        == LimitRows(rows, skip, limit, env))
      <==> SkipCounted(skip, limit, most, env)
  {
    var k := StaticBound(skip, limit, most).value;
    StaticCountIsCount(limit.value, most, env);
    if skip.Some? && StaticCount(skip.value, most).Some? { StaticCountIsCount(skip.value, most, env); }
    if SkipCounted(skip, limit, most, env) {
      forall rows: seq<Row> | |rows| <= most
        ensures LimitRows(Take(rows, k), skip, limit, env) == LimitRows(rows, skip, limit, env)
      {
        StaticTake(rows, skip, limit, most, env);
      }
    } else {
      var rows := Copies(map[], SkipCount(skip, env) + Count(limit.value, env));
      assert |LimitRows(rows, skip, limit, env)| == Count(limit.value, env);
      assert |LimitRows(Take(rows, k), skip, limit, env)| < Count(limit.value, env);
    }
  }

  function Copies(row: Row, n: nat): (rows: seq<Row>)
    ensures |rows| == n
  {
    if n == 0 then [] else [row] + Copies(row, n - 1)
  }

  /** Two counts of 64-bit integers never reach the largest size of a 64-bit
      machine, so no bound saturates there. */
  lemma NoBoundSaturates(skip: Option<Expr>, limit: Option<Expr>, most: nat)
    requires most == 0xFFFF_FFFF_FFFF_FFFF
    requires forall e | e in [skip, limit] && e.Some? && e.value.Literal? && e.value.value.Int? ::
      e.value.value.number < 0x8000_0000_0000_0000
    ensures StaticBound(skip, limit, most) != Some(most)
  {
    assert skip in [skip, limit] && limit in [skip, limit];
  }

  // ----- the pass -----

  /** Where a LIMIT reads a sort, SKIP is counted and the bound does not
      saturate. */
  ghost predicate LimitSite(nodes: seq<LogicalOp>, i: nat, most: nat, env: Env) {
    i < |nodes| && nodes[i].Limit? && nodes[i].input < |nodes| && nodes[nodes[i].input].Sort? ==>
      && SkipCounted(nodes[i].skip, nodes[i].limit, most, env)
      && StaticBound(nodes[i].skip, nodes[i].limit, most) != Some(most)
  }

  ghost predicate LimitSites(nodes: seq<LogicalOp>, most: nat, env: Env) {
    forall i | 0 <= i < |nodes| :: LimitSite(nodes, i, most, env)
  }

  lemma AnnotateShape(root: nat, nodes: seq<LogicalOp>, live: set<nat>, i: nat, most: nat)
    requires PlanOk(root, nodes, live)
    ensures PlanOk(root, AnnotateAt(nodes, i, most), live)
    ensures AnnotateAt(nodes, i, most) != nodes ==>
      && i < |nodes| && nodes[i].Limit? && nodes[i].input < i && nodes[nodes[i].input].Sort?
      && i in live && nodes[i].input in live && root != nodes[i].input
      && Region(nodes, AnnotateAt(nodes, i, most), i, {nodes[i].input}, live)
  {
    var out := AnnotateAt(nodes, i, most);
    if out != nodes {
      var j := nodes[i].input;
      assert InputsBelow(nodes[i], i) && j in Inputs(nodes[i]);
      SameInputs(nodes, out, root, live);
      OnlyParent(nodes, live, i, j);
    }
  }

  // ----- runs -----

  /** What the sort may make of `rows` where it makes `made` under the bound. */
  ghost function Unbounded(sort: LogicalOp, bounded: LogicalOp, rows: seq<Row>, made: seq<Row>, x: Exec): seq<Row>
    requires sort.Sort? && bounded.Sort?
  {
    if sort.presorted > 0 then SortRows(sort, rows, x)
    else if list :| SortedPerm(sort.keys, list, rows, x) && made == Cut(list, SortBound(bounded.topK, bounded.bound, x.env))
    then Cut(list, SortBound(sort.topK, sort.bound, x.env))
    else []
  }

  lemma UnboundedMakes(
    sort: LogicalOp, skip: Option<Expr>, limit: Option<Expr>, most: nat, rows: seq<Row>, made: seq<Row>, x: Exec)
    requires sort.Sort? && SortMakes(Annotated(sort, skip, limit, most), rows, made, x)
    requires SkipCounted(skip, limit, most, x.env) && StaticBound(skip, limit, most) != Some(most)
    ensures var out := Unbounded(sort, Annotated(sort, skip, limit, most), rows, made, x);
      && SortMakes(sort, rows, out, x)
      && LimitRows(made, skip, limit, x.env) == LimitRows(out, skip, limit, x.env)
  {
    var bounded := Annotated(sort, skip, limit, most);
    var out := Unbounded(sort, bounded, rows, made, x);
    if sort.presorted > 0 {
      LimitOfAnnotated(sort, skip, limit, most, rows, x);
    } else {
      var list :| SortedPerm(sort.keys, list, rows, x)
        && made == Cut(list, SortBound(bounded.topK, bounded.bound, x.env))
        && out == Cut(list, SortBound(sort.topK, sort.bound, x.env));
      LimitOfCut(sort, skip, limit, most, list, x.env);
    }
  }

  ghost function UnboundedRows(nodes: seq<LogicalOp>, out: seq<LogicalOp>, j: nat, run: Run, x: Exec): Row -> seq<Row>
    requires j < |nodes| && j < |out| && nodes[j].Sort? && out[j].Sort?
  {
    (arg: Row) => Unbounded(nodes[j], out[j], run(nodes[j].input, arg), run(j, arg), x)
  }

  /** Both the sort and the LIMIT may have had their rows. */
  lemma AnnotatePermits(nodes: seq<LogicalOp>, i: nat, most: nat, run: Run, x: Exec, arg: Row)
    requires Topological(nodes) && Topological(AnnotateAt(nodes, i, most)) && AnnotateAt(nodes, i, most) != nodes
    requires i < |nodes| && nodes[i].Limit? && nodes[i].input < i && nodes[nodes[i].input].Sort?
    requires LimitSite(nodes, i, most, x.env)
    requires Permits(AnnotateAt(nodes, i, most), run, i, x, arg)
    requires Permits(AnnotateAt(nodes, i, most), run, nodes[i].input, x, arg)
    ensures var out, j := AnnotateAt(nodes, i, most), nodes[i].input;
      var before := WithRows(run, j, UnboundedRows(nodes, out, j, run, x));
      Permits(nodes, before, j, x, arg) && Permits(nodes, before, i, x, arg)
  {
    var out, j := AnnotateAt(nodes, i, most), nodes[i].input;
    var before := WithRows(run, j, UnboundedRows(nodes, out, j, run, x));
    assert nodes[j].input in Inputs(nodes[j]) && InputsBelow(nodes[j], j);
    SortPermits(out, run, j, x, arg);
    SortPermits(nodes, before, j, x, arg);
    LimitPermits(out, run, i, x, arg);
    LimitPermits(nodes, before, i, x, arg);
    UnboundedMakes(nodes[j], nodes[i].skip, nodes[i].limit, most, run(nodes[j].input, arg), run(j, arg), x);
    assert before(j, arg) == Unbounded(nodes[j], out[j], run(nodes[j].input, arg), run(j, arg), x);
  }

  /** A run of the plan with the bound is a run of the plan without it. */
  lemma AnnotateAtRun(
    root: nat, nodes: seq<LogicalOp>, live: set<nat>, i: nat, most: nat, run: Run, x: Exec) returns (before: Run)
    requires PlanOk(root, nodes, live) && LimitSites(nodes, most, x.env)
    requires Topological(AnnotateAt(nodes, i, most)) && IsRun(AnnotateAt(nodes, i, most), live, run, x)
    ensures IsRun(nodes, live, before, x) && forall arg :: before(root, arg) == run(root, arg)
  {
    var out := AnnotateAt(nodes, i, most);
    before := run;
    if out != nodes {
      var j := nodes[i].input;
      AnnotateShape(root, nodes, live, i, most);
      before := WithRows(run, j, UnboundedRows(nodes, out, j, run, x));
      assert LimitSite(nodes, i, most, x.env) && PermitsAll(out, run, i, x) && PermitsAll(out, run, j, x);
      forall arg ensures Permits(nodes, before, j, x, arg) && Permits(nodes, before, i, x, arg) {
        AnnotatePermits(nodes, i, most, run, x, arg);
      }
      assert PermitsAll(nodes, before, j, x) && PermitsAll(nodes, before, i, x);
      RegionRun(nodes, out, i, {j}, live, live, run, before, x);
    }
  }

  lemma AnnotateAtPlan(root: nat, nodes: seq<LogicalOp>, live: set<nat>, i: nat, most: nat, env: Env)
    requires PlanOk(root, nodes, live) && LimitSites(nodes, most, env)
    ensures PlanOk(root, AnnotateAt(nodes, i, most), live) && LimitSites(AnnotateAt(nodes, i, most), most, env)
  {
    AnnotateShape(root, nodes, live, i, most);
    var out := AnnotateAt(nodes, i, most);
    forall k | 0 <= k < |out| ensures LimitSite(out, k, most, env) { assert LimitSite(nodes, k, most, env); }
  }

  /** The whole pass keeps the plan a forest in topological order. */
  lemma {:induction false} AnnotateKeepsPlan(
    root: nat, nodes: seq<LogicalOp>, live: set<nat>, i: nat, most: nat, env: Env)
    requires PlanOk(root, nodes, live) && LimitSites(nodes, most, env)
    ensures PlanOk(root, AnnotateFrom(nodes, i, most), live)
    decreases |nodes| - i
  {
    if i < |nodes| {
      AnnotateAtPlan(root, nodes, live, i, most, env);
      AnnotateKeepsPlan(root, AnnotateAt(nodes, i, most), live, i + 1, most, env);
    }
  }

  /** And every run after it is a run before it, with the rows of the root:
      no LIMIT misses a row. */
  lemma {:induction false} AnnotateRuns(
    root: nat, nodes: seq<LogicalOp>, live: set<nat>, i: nat, most: nat, run: Run, x: Exec) returns (before: Run)
    requires PlanOk(root, nodes, live) && LimitSites(nodes, most, x.env)
    requires Topological(AnnotateFrom(nodes, i, most)) && IsRun(AnnotateFrom(nodes, i, most), live, run, x)
    ensures IsRun(nodes, live, before, x) && forall arg :: before(root, arg) == run(root, arg)
    decreases |nodes| - i
  {
    before := run;
    if i < |nodes| {
      var out := AnnotateAt(nodes, i, most);
      AnnotateAtPlan(root, nodes, live, i, most, x.env);
      var middle := AnnotateRuns(root, out, live, i + 1, most, run, x);
      before := AnnotateAtRun(root, nodes, live, i, most, middle, x);
    }
  }

  // ----- row for row -----

  lemma AnnotateDenotes(nodes: seq<LogicalOp>, i: nat, most: nat, x: Exec)
    requires Topological(nodes) && Topological(AnnotateAt(nodes, i, most))
    requires i < |nodes| && nodes[i].Limit? && nodes[i].input < i && nodes[nodes[i].input].Sort?
    requires LimitSite(nodes, i, most, x.env)
    ensures SameRows(nodes, AnnotateAt(nodes, i, most), i, x)
  {
    var out, j := AnnotateAt(nodes, i, most), nodes[i].input;
    var sort := nodes[j];
    assert sort.input in Inputs(sort) && InputsBelow(sort, j);
    forall arg ensures Denote(nodes, i, x, arg) == Denote(out, i, x, arg) {
      DenoteAgrees(nodes, out, sort.input, x, arg);
      var rows := Denote(nodes, sort.input, x, arg);
      assert Denote(nodes, j, x, arg) == SortRows(sort, rows, x);
      assert Denote(out, j, x, arg) == SortRows(Annotated(sort, nodes[i].skip, nodes[i].limit, most), rows, x);
      LimitOfAnnotated(sort, nodes[i].skip, nodes[i].limit, most, rows, x);
    }
  }

  lemma AnnotateAtKeeps(root: nat, nodes: seq<LogicalOp>, live: set<nat>, i: nat, most: nat, x: Exec)
    requires PlanOk(root, nodes, live) && LimitSites(nodes, most, x.env)
    ensures Topological(AnnotateAt(nodes, i, most)) && SameRows(nodes, AnnotateAt(nodes, i, most), root, x)
  {
    AnnotateShape(root, nodes, live, i, most);
    if AnnotateAt(nodes, i, most) != nodes {
      assert LimitSite(nodes, i, most, x.env);
      AnnotateDenotes(nodes, i, most, x);
      LiftSame(nodes, AnnotateAt(nodes, i, most), i, {nodes[i].input}, live, root, x);
    }
  }

  /** An execution keeps its rows at the root, in order. */
  lemma {:induction false} AnnotateKeepsRows(
    root: nat, nodes: seq<LogicalOp>, live: set<nat>, i: nat, most: nat, x: Exec)
    requires PlanOk(root, nodes, live) && LimitSites(nodes, most, x.env)
    ensures Topological(AnnotateFrom(nodes, i, most)) && SameRows(nodes, AnnotateFrom(nodes, i, most), root, x)
    decreases |nodes| - i
  {
    if i >= |nodes| { return; }
    var next := AnnotateAt(nodes, i, most);
    AnnotateAtPlan(root, nodes, live, i, most, x.env);
    AnnotateAtKeeps(root, nodes, live, i, most, x);
    AnnotateKeepsRows(root, next, live, i + 1, most, x);
    SameRowsThrough(nodes, next, AnnotateFrom(next, i + 1, most), root, x);
  }
}
