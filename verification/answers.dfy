/** The answers a query allows: ORDER BY fixes an order only up to its keys,
    and rows keep an order that is fixed through clauses that only project,
    filter and count, and through UNWIND. Any other clause may give its rows in
    any order. SKIP and LIMIT count along the order there is, and a grouping is
    given the rows in it. */
module Answers {
  import opened Values
  import opened Expressions
  import opened Sorting
  import opened Logical
  import opened Arena
  import opened Planning
  import opened Placement
  import opened Runs
  import opened Clauses
  import opened Walks
  import opened Queries

  // ----- the answers of a clause -----

  /** The rows a clause sorts and counts. */
  function Before(c: Clause, rows: seq<Row>, x: Exec): seq<Row> {
    if !Grouped(c) then
      if c.distinct then Dedup(MapRows(Shown(c, x.env), rows), {}) else MapRows(Wide(c.items, x.env), rows)
    else
      var final := FinalItems(c.items, c.lifted);
      if c.distinct then Dedup(MapRows(Narrow(final, x.env), Groups(c, rows, x)), {})
      else MapRows(Wide(final, x.env), Groups(c, rows, x))
  }

  function OrderKeys(c: Clause): seq<SortKey> {
    if Grouped(c) || c.distinct then KeysOnOutputs(c.order, c.items) else c.order
  }

  /** What it leaves of each in the end. */
  function After(c: Clause): Row -> Row {
    if c.distinct then Same() else if Grouped(c) then Only(Outputs(c.items)) else Trim(c)
  }

  /** `out` is what SKIP and LIMIT leave of `rows` in some order the keys
      allow, each row through `f`. */
  ghost predicate Picked(c: Clause, keys: seq<SortKey>, f: Row -> Row, rows: seq<Row>, out: seq<Row>, x: Exec) {
    exists list :: SortedPerm(keys, list, rows, x) && out == MapRows(f, LimitRows(list, c.skip, c.limit, x.env))
  }

  /** A clause that neither sorts nor loses the order of its rows. */
  predicate InItsOrder(c: Clause) { !Grouped(c) && !c.distinct && c.order == [] }

  /** `ordered` says that the order of `rows` is fixed. */
  ghost predicate ColumnsAnswer(c: Clause, ordered: bool, rows: seq<Row>, out: seq<Row>, x: Exec) {
    if ordered && InItsOrder(c) then out == MapRows(After(c), LimitRows(Before(c, rows, x), c.skip, c.limit, x.env))
    else Picked(c, OrderKeys(c), After(c), Before(c, rows, x), out, x)
  }

  /** Whether the order of a clause's rows is fixed, given whether that of its
      input is. */
  predicate ColumnsOrdered(c: Clause, ordered: bool) { c.order != [] || (ordered && InItsOrder(c)) }

  predicate OrderedAfter(c: QueryClause, ordered: bool) {
    match c
    case UnwindClause(_, _) => ordered
    case WithClause(columns, _) => ColumnsOrdered(columns, ordered)
    case ReturnClause(columns) => ColumnsOrdered(columns, ordered)
    case _ => false
  }

  ghost predicate WithAnswer(
    c: Clause, where: Option<Expr>, ordered: bool, rows: seq<Row>, out: seq<Row>, x: Exec)
  {
    exists mid ::
      ColumnsAnswer(c, ordered, rows, mid, x)
      && SameOrAny(ColumnsOrdered(c, ordered), out, Keep(WhereList(where), mid, x.env))
  }

  /** The outer rows, each with the rows the subquery answers for it. */
  ghost function CalledEach(f: Row -> seq<Row>, bs: seq<CallBranch>): Row -> seq<Row> {
    (row: Row) => Called(row, f(row), bs)
  }

  /** `out` is an answer of the clauses to `rows`. */
  ghost predicate Answer(cs: seq<QueryClause>, ordered: bool, rows: seq<Row>, out: seq<Row>, x: Exec)
    decreases cs, 0
  {
    if cs == [] then out == rows
    else exists mid ::
      ClauseAnswer(cs[0], ordered, rows, mid, x) && Answer(cs[1..], OrderedAfter(cs[0], ordered), mid, out, x)
  }

  ghost predicate ClauseAnswer(c: QueryClause, ordered: bool, rows: seq<Row>, out: seq<Row>, x: Exec)
    decreases c, 1
  {
    match c
    case WithClause(columns, where) => WithAnswer(columns, where, ordered, rows, out, x)
    case ReturnClause(columns) => ColumnsAnswer(columns, ordered, rows, out, x)
    case CallClause(_, unions, _) =>
      exists f: Row -> seq<Row> ::
        (forall row | row in rows :: BodyAnswer(c, row, f(row), x))
        && Perm(out, FlatMap(CalledEach(f, unions), rows))
    case UnwindClause(_, _) => SameOrAny(ordered, out, RunClause(c, rows, x))
    case MatchClause(_, _, _) => Perm(out, RunClause(c, rows, x))
  }

  /** An answer of the body followed by answers of the branches. */
  ghost predicate BodyAnswer(c: QueryClause, row: Row, out: seq<Row>, x: Exec)
    requires c.CallClause?
    decreases c, 0
  {
    exists first, others ::
      Answer(c.body, true, [row], first, x) && BranchesAnswer(c.unions, c.returnVars, row, others, x)
      && out == first + others
  }

  ghost predicate BranchesAnswer(bs: seq<CallBranch>, heads: seq<VarId>, row: Row, out: seq<Row>, x: Exec)
    decreases bs, 0
  {
    if bs == [] then out == []
    else exists mid, rest ::
      Answer(bs[0].body, true, [row], mid, x) && BranchesAnswer(bs[1..], heads, row, rest, x)
      && Joined(bs[0], heads, mid, rest, out, x)
  }

  /** The branch's rows under the head's names, and the others. */
  ghost predicate Joined(b: CallBranch, heads: seq<VarId>, mid: seq<Row>, rest: seq<Row>, out: seq<Row>, x: Exec) {
    Perm(out, MapRows(Narrow(BranchColumns(b, heads), x.env), mid) + rest)
  }

  /** A fixed order is one of those allowed. */
  lemma AnyColumns(c: Clause, ordered: bool, rows: seq<Row>, out: seq<Row>, x: Exec)
    requires ColumnsAnswer(c, ordered, rows, out, x)
    ensures Picked(c, OrderKeys(c), After(c), Before(c, rows, x), out, x)
  {
    if ordered && InItsOrder(c) { assert SortedPerm([], Before(c, rows, x), Before(c, rows, x), x); }
  }

  // ----- patterns, row by row -----

  lemma PartConcat(p: Part, a: seq<Row>, b: seq<Row>, x: Exec)
    ensures MatchPart(p, a + b, x) == MatchPart(p, a, x) + MatchPart(p, b, x)
  {
    var c := Walked(p);
    MatchChainEach(c, a + b, x);
    MatchChainEach(c, a, x);
    MatchChainEach(c, b, x);
    FlatMapConcat((row: Row) => MatchChain(c, [row], x), a, b);
    if p.binding.Some? { StepAllConcat(PathOf(p), MatchChain(c, a, x), MatchChain(c, b, x), x); }
  }

  lemma {:induction false} PatternConcat(parts: seq<Part>, a: seq<Row>, b: seq<Row>, x: Exec)
    ensures MatchPattern(parts, a + b, x)
         == MatchPattern(parts, a, x) + MatchPattern(parts, b, x)
    decreases |parts|
  {
    if parts != [] {
      PartConcat(parts[0], a, b, x);
      PatternConcat(parts[1..], MatchPart(parts[0], a, x),
                    MatchPart(parts[0], b, x), x);
    }
  }

  lemma MatchesConcat(
    parts: seq<Part>, where: Option<Expr>, a: seq<Row>, b: seq<Row>, x: Exec)
    ensures Matches(parts, where, a + b, x)
         == Matches(parts, where, a, x) + Matches(parts, where, b, x)
  {
    PatternConcat(parts, a, b, x);
    KeepConcat(WhereList(where), MatchPattern(parts, a, x), MatchPattern(parts, b, x), x.env);
  }

  /** The matches of each row by itself. */
  function MatchEach(parts: seq<Part>, where: Option<Expr>, x: Exec): Row -> seq<Row>
  {
    (row: Row) => Matches(parts, where, [row], x)
  }

  /** A pattern matches row by row. */
  lemma {:induction false} MatchesEach(
    parts: seq<Part>, where: Option<Expr>, rows: seq<Row>, x: Exec)
    ensures Matches(parts, where, rows, x) == FlatMap(MatchEach(parts, where, x), rows)
  {
    if rows == [] {
      MatchesConcat(parts, where, [], [], x);
      assert rows + rows == rows;
    } else {
      MatchesConcat(parts, where, [rows[0]], rows[1..], x);
      assert [rows[0]] + rows[1..] == rows;
      MatchesEach(parts, where, rows[1..], x);
    }
  }

  lemma MatchesPerm(
    parts: seq<Part>, where: Option<Expr>, a: seq<Row>, b: seq<Row>, x: Exec)
    requires Perm(a, b)
    ensures Perm(Matches(parts, where, a, x), Matches(parts, where, b, x))
  {
    MatchesEach(parts, where, a, x);
    MatchesEach(parts, where, b, x);
    FlatMapPerm(MatchEach(parts, where, x), a, b);
  }

  // ----- an execution's rows are an answer -----

  lemma CypherIsPicked(c: Clause, rows: seq<Row>, x: Exec)
    requires TotalPreorder(x.le)
    ensures Picked(c, OrderKeys(c), After(c), Before(c, rows, x), Cypher(c, rows, x), x)
    ensures c.order == [] ==>
      Cypher(c, rows, x) == MapRows(After(c), LimitRows(Before(c, rows, x), c.skip, c.limit, x.env))
  {
    var before, keys := Before(c, rows, x), OrderKeys(c);
    var list := StableSort(keys, before, x.env, x.le);
    SortKeeps(keys, before, x.env, x.le);
    SortSorts(keys, before, x.env, x.le);
    assert SortedPerm(keys, list, before, x);
    MapIdentity(Same(), LimitRows(list, c.skip, c.limit, x.env));
    assert Cypher(c, rows, x) == MapRows(After(c), LimitRows(list, c.skip, c.limit, x.env));
    NoKeysNoSort(before, x.env, x.le);
  }

  lemma CypherIsAnswer(c: Clause, ordered: bool, rows: seq<Row>, x: Exec)
    requires TotalPreorder(x.le)
    ensures ColumnsAnswer(c, ordered, rows, Cypher(c, rows, x), x)
  {
    CypherIsPicked(c, rows, x);
  }

  /** The rows of a query, its sorts stable, are an answer. */
  lemma {:induction false} RunIsAnswer(cs: seq<QueryClause>, ordered: bool, rows: seq<Row>, x: Exec)
    requires TotalPreorder(x.le)
    ensures Answer(cs, ordered, rows, RunClauses(cs, rows, x), x)
    decreases cs, 1
  {
    if cs != [] {
      ClauseIsAnswer(cs[0], ordered, rows, x);
      RunIsAnswer(cs[1..], OrderedAfter(cs[0], ordered), RunClause(cs[0], rows, x), x);
    }
  }

  lemma {:induction false} ClauseIsAnswer(c: QueryClause, ordered: bool, rows: seq<Row>, x: Exec)
    requires TotalPreorder(x.le)
    ensures ClauseAnswer(c, ordered, rows, RunClause(c, rows, x), x)
    decreases c, 1
  {
    match c
    case WithClause(columns, _) => CypherIsAnswer(columns, ordered, rows, x);
    case ReturnClause(columns) => CypherIsAnswer(columns, ordered, rows, x);
    case CallClause(_, _, _) => CallIsAnswer(c, ordered, rows, x);
    case _ =>
  }

  lemma {:induction false} CallIsAnswer(c: QueryClause, ordered: bool, rows: seq<Row>, x: Exec)
    requires c.CallClause? && TotalPreorder(x.le)
    ensures ClauseAnswer(c, ordered, rows, RunClause(c, rows, x), x)
    decreases c, 0
  {
    var body, unions, heads := c.body, c.unions, c.returnVars;
    var f := (row: Row) => RunClauses(body, [row], x) + RunBranches(unions, heads, row, x);
    forall row | row in rows ensures BodyAnswer(c, row, f(row), x) {
      RunIsAnswer(body, true, [row], x);
      BranchesAreAnswer(unions, heads, row, x);
    }
    FlatMapSame(CalledEach(f, unions),
                (row: Row) => Called(row, RunClauses(body, [row], x) + RunBranches(unions, heads, row, x), unions), rows);
  }

  lemma {:induction false} BranchesAreAnswer(bs: seq<CallBranch>, heads: seq<VarId>, row: Row, x: Exec)
    requires TotalPreorder(x.le)
    ensures BranchesAnswer(bs, heads, row, RunBranches(bs, heads, row, x), x)
    decreases bs, 1
  {
    if bs != [] {
      RunIsAnswer(bs[0].body, true, [row], x);
      BranchesAreAnswer(bs[1..], heads, row, x);
      assert Joined(bs[0], heads, RunClauses(bs[0].body, [row], x), RunBranches(bs[1..], heads, row, x),
                    RunBranches(bs, heads, row, x), x);
    }
  }

  // ----- where nothing depends on the order of rows -----

  predicate Uncounted(c: Clause) { c.skip.None? && c.limit.None? }

  /** The clause's grouping, if it groups, does not see the order of rows. */
  ghost predicate Blind(c: Clause, x: Exec) {
    Grouped(c) ==> OrderBlind(GroupKeys(c.items, c.lifted), BareAggregates(c.items, c.lifted) + c.lifted, x)
  }

  /** No clause has SKIP or LIMIT, and no grouping sees the order of rows. */
  ghost predicate AllOrderless(cs: seq<QueryClause>, x: Exec)
    decreases cs, 0
  {
    cs == [] || (Orderless(cs[0], x) && AllOrderless(cs[1..], x))
  }

  ghost predicate Orderless(c: QueryClause, x: Exec)
    decreases c, 0
  {
    if c.WithClause? || c.ReturnClause? then Uncounted(c.columns) && Blind(c.columns, x)
    else c.CallClause? ==> AllOrderless(c.body, x) && BranchesOrderless(c.unions, x)
  }

  ghost predicate BranchesOrderless(bs: seq<CallBranch>, x: Exec)
    decreases bs, 0
  {
    bs == [] || (AllOrderless(bs[0].body, x) && BranchesOrderless(bs[1..], x))
  }

  lemma {:induction false} MapRowsFlat(f: Row -> Row, rows: seq<Row>)
    ensures MapRows(f, rows) == FlatMap((row: Row) => [f(row)], rows)
  {
    if rows != [] { MapRowsFlat(f, rows[1..]); }
  }

  lemma MapRowsPerm(f: Row -> Row, a: seq<Row>, b: seq<Row>)
    requires Perm(a, b)
    ensures Perm(MapRows(f, a), MapRows(f, b))
  {
    MapRowsFlat(f, a);
    MapRowsFlat(f, b);
    FlatMapPerm((row: Row) => [f(row)], a, b);
  }

  lemma BeforePerm(c: Clause, a: seq<Row>, b: seq<Row>, x: Exec)
    requires Perm(a, b) && Blind(c, x)
    ensures Perm(Before(c, a, x), Before(c, b, x))
  {
    if Grouped(c) {
      var final, f, g := FinalItems(c.items, c.lifted), Groups(c, a, x), Groups(c, b, x);
      MapRowsPerm(Narrow(final, x.env), f, g);
      MapRowsPerm(Wide(final, x.env), f, g);
      DedupPerm(MapRows(Narrow(final, x.env), f), MapRows(Narrow(final, x.env), g));
    } else if c.distinct {
      MapRowsPerm(Shown(c, x.env), a, b);
      DedupPerm(MapRows(Shown(c, x.env), a), MapRows(Shown(c, x.env), b));
    } else {
      MapRowsPerm(Wide(c.items, x.env), a, b);
    }
  }

  /** Such a clause answers the same rows, each as often. */
  lemma ColumnsUncounted(c: Clause, ordered: bool, a: seq<Row>, b: seq<Row>, out: seq<Row>, x: Exec)
    requires Uncounted(c) && Blind(c, x) && Perm(a, b) && ColumnsAnswer(c, ordered, a, out, x) && TotalPreorder(x.le)
    ensures Perm(out, Cypher(c, b, x))
  {
    AnyColumns(c, ordered, a, out, x);
    var list :| SortedPerm(OrderKeys(c), list, Before(c, a, x), x)
      && out == MapRows(After(c), LimitRows(list, c.skip, c.limit, x.env));
    CypherIsPicked(c, b, x);
    var other :| SortedPerm(OrderKeys(c), other, Before(c, b, x), x)
      && Cypher(c, b, x) == MapRows(After(c), LimitRows(other, c.skip, c.limit, x.env));
    BeforePerm(c, a, b, x);
    MapRowsPerm(After(c), list, other);
  }

  /** What the clause makes of the rows, up to order. */
  function Made(c: Clause, rows: seq<Row>, x: Exec): seq<Row> { MapRows(After(c), Before(c, rows, x)) }

  lemma AnswerIsMade(c: Clause, rows: seq<Row>, out: seq<Row>, x: Exec)
    requires Uncounted(c) && ColumnsAnswer(c, false, rows, out, x)
    ensures Perm(out, Made(c, rows, x))
  {
    var list :| SortedPerm(OrderKeys(c), list, Before(c, rows, x), x)
      && out == MapRows(After(c), LimitRows(list, c.skip, c.limit, x.env));
    MapRowsPerm(After(c), list, Before(c, rows, x));
  }

  /** Every two answers of the clause to orders of the rows have the same rows. */
  ghost predicate SameAnswers(c: Clause, rows: seq<Row>, x: Exec) {
    forall a, b, out, other | Perm(a, rows) && Perm(b, rows)
      && ColumnsAnswer(c, false, a, out, x) && ColumnsAnswer(c, false, b, other, x) :: Perm(out, other)
  }

  /** Given rows in any order, a clause that counts none of them answers the
      same rows exactly when it makes the same of every order of them. */
  lemma SameAnswersIff(c: Clause, rows: seq<Row>, x: Exec)
    requires Uncounted(c) && TotalPreorder(x.le)
    ensures SameAnswers(c, rows, x)
      <==> (forall a, b | Perm(a, rows) && Perm(b, rows) :: Perm(Made(c, a, x), Made(c, b, x)))
  {
    if SameAnswers(c, rows, x) {
      forall a, b | Perm(a, rows) && Perm(b, rows) ensures Perm(Made(c, a, x), Made(c, b, x)) {
        CypherIsAnswer(c, false, a, x);
        CypherIsAnswer(c, false, b, x);
        AnswerIsMade(c, a, Cypher(c, a, x), x);
        AnswerIsMade(c, b, Cypher(c, b, x), x);
        assert Perm(Cypher(c, a, x), Cypher(c, b, x));
      }
    }
    if forall a, b | Perm(a, rows) && Perm(b, rows) :: Perm(Made(c, a, x), Made(c, b, x)) {
      forall a, b, out, other | Perm(a, rows) && Perm(b, rows)
        && ColumnsAnswer(c, false, a, out, x) && ColumnsAnswer(c, false, b, other, x)
        ensures Perm(out, other)
      {
        AnswerIsMade(c, a, out, x);
        AnswerIsMade(c, b, other, x);
        assert Perm(Made(c, a, x), Made(c, b, x));
      }
    }
  }

  lemma WithUncounted(
    c: Clause, where: Option<Expr>, ordered: bool, a: seq<Row>, b: seq<Row>, out: seq<Row>, x: Exec)
    requires Uncounted(c) && Blind(c, x) && Perm(a, b) && WithAnswer(c, where, ordered, a, out, x)
    requires TotalPreorder(x.le)
    ensures Perm(out, Keep(WhereList(where), Cypher(c, b, x), x.env))
  {
    var mid :| ColumnsAnswer(c, ordered, a, mid, x)
      && SameOrAny(ColumnsOrdered(c, ordered), out, Keep(WhereList(where), mid, x.env));
    ColumnsUncounted(c, ordered, a, b, mid, x);
    KeepPerm(WhereList(where), mid, Cypher(c, b, x), x.env);
  }

  lemma CalledPerm(row: Row, a: seq<Row>, b: seq<Row>, bs: seq<CallBranch>, ds: seq<CallBranch>)
    requires Perm(a, b) && |bs| == |ds| && forall i | 0 <= i < |bs| :: bs[i].all == ds[i].all
    ensures Perm(Called(row, a, bs), Called(row, b, ds))
  {
    assert (exists k | 0 <= k < |bs| :: !bs[k].all) <==> (exists k | 0 <= k < |ds| :: !ds[k].all);
    DedupPerm(a, b);
    MergeAllPerm(row, a, b, false);
    MergeAllPerm(row, Dedup(a, {}), Dedup(b, {}), false);
  }

  lemma FlatMapPermBoth<A>(f: A -> seq<Row>, g: A -> seq<Row>, a: seq<A>, b: seq<A>)
    requires Perm(a, b) && forall e | e in a :: Perm(f(e), g(e))
    ensures Perm(FlatMap(f, a), FlatMap(g, b))
  {
    FlatMapPermEach(f, g, a);
    FlatMapPerm(g, a, b);
  }

  /** Where no clause counts rows and no grouping sees their order, every
      answer has the same rows, each as often, whatever order it was given
      them in. */
  lemma {:induction false} OneAnswer(cs: seq<QueryClause>, ordered: bool, a: seq<Row>, b: seq<Row>, out: seq<Row>, x: Exec)
    requires AllOrderless(cs, x) && Perm(a, b) && Answer(cs, ordered, a, out, x) && TotalPreorder(x.le)
    ensures Perm(out, RunClauses(cs, b, x))
    decreases cs, 2
  {
    if cs != [] {
      var mid :| ClauseAnswer(cs[0], ordered, a, mid, x) && Answer(cs[1..], OrderedAfter(cs[0], ordered), mid, out, x);
      OneClauseAnswer(cs[0], ordered, a, b, mid, x);
      OneAnswer(cs[1..], OrderedAfter(cs[0], ordered), mid, RunClause(cs[0], b, x), out, x);
    }
  }

  lemma {:induction false} OneClauseAnswer(c: QueryClause, ordered: bool, a: seq<Row>, b: seq<Row>, out: seq<Row>, x: Exec)
    requires Orderless(c, x) && Perm(a, b) && ClauseAnswer(c, ordered, a, out, x) && TotalPreorder(x.le)
    ensures Perm(out, RunClause(c, b, x))
    decreases c, 2
  {
    match c
    case MatchClause(false, parts, where) => MatchesPerm(parts, where, a, b, x);
    case MatchClause(true, parts, where) =>
      FlatMapPerm((row: Row) => OrNull(row, Matches(parts, where, [row], x), Binders(parts)), a, b);
    case UnwindClause(expr, alias) => StepAllPerm(Unwind(0, expr, alias), a, b, x);
    case WithClause(columns, where) => WithUncounted(columns, where, ordered, a, b, out, x);
    case ReturnClause(columns) => ColumnsUncounted(columns, ordered, a, b, out, x);
    case CallClause(_, _, _) => OneCallAnswer(c, ordered, a, b, out, x);
  }

  lemma {:induction false} OneCallAnswer(c: QueryClause, ordered: bool, a: seq<Row>, b: seq<Row>, out: seq<Row>, x: Exec)
    requires c.CallClause? && Orderless(c, x) && Perm(a, b) && ClauseAnswer(c, ordered, a, out, x)
    requires TotalPreorder(x.le)
    ensures Perm(out, RunClause(c, b, x))
    decreases c, 1
  {
    var body, unions, heads := c.body, c.unions, c.returnVars;
    var f: Row -> seq<Row> :| (forall row | row in a :: BodyAnswer(c, row, f(row), x))
      && Perm(out, FlatMap(CalledEach(f, unions), a));
    var g := (row: Row) => Called(row, RunClauses(body, [row], x) + RunBranches(unions, heads, row, x), unions);
    forall row | row in a ensures Perm(CalledEach(f, unions)(row), g(row)) {
      OneBodyAnswer(c, row, f(row), x);
      CalledPerm(row, f(row), RunClauses(body, [row], x) + RunBranches(unions, heads, row, x), unions, unions);
    }
    FlatMapPermBoth(CalledEach(f, unions), g, a, b);
  }

  lemma {:induction false} OneBodyAnswer(c: QueryClause, row: Row, out: seq<Row>, x: Exec)
    requires c.CallClause? && Orderless(c, x) && BodyAnswer(c, row, out, x) && TotalPreorder(x.le)
    ensures Perm(out, RunClauses(c.body, [row], x) + RunBranches(c.unions, c.returnVars, row, x))
    decreases c, 0
  {
    var first, others :| Answer(c.body, true, [row], first, x)
      && BranchesAnswer(c.unions, c.returnVars, row, others, x) && out == first + others;
    OneAnswer(c.body, true, [row], [row], first, x);
    OneBranchesAnswer(c.unions, c.returnVars, row, others, x);
  }

  lemma {:induction false} OneBranchesAnswer(
    bs: seq<CallBranch>, heads: seq<VarId>, row: Row, out: seq<Row>, x: Exec)
    requires BranchesOrderless(bs, x) && BranchesAnswer(bs, heads, row, out, x)
    requires TotalPreorder(x.le)
    ensures Perm(out, RunBranches(bs, heads, row, x))
    decreases bs, 2
  {
    if bs == [] { return; }
    var f := Narrow(BranchColumns(bs[0], heads), x.env);
    var mid, rest :| Answer(bs[0].body, true, [row], mid, x) && BranchesAnswer(bs[1..], heads, row, rest, x)
      && Joined(bs[0], heads, mid, rest, out, x);
    OneAnswer(bs[0].body, true, [row], [row], mid, x);
    MapRowsPerm(f, mid, RunClauses(bs[0].body, [row], x));
    OneBranchesAnswer(bs[1..], heads, row, rest, x);
  }

  // ----- a last clause -----

  function AllOrderedAfter(cs: seq<QueryClause>, ordered: bool): bool {
    if cs == [] then ordered else AllOrderedAfter(cs[1..], OrderedAfter(cs[0], ordered))
  }

  /** An answer of clauses and one more is one of the last to an answer of the
      others. */
  lemma {:induction false} LastClause(
    cs: seq<QueryClause>, c: QueryClause, ordered: bool, rows: seq<Row>, out: seq<Row>, x: Exec) returns (mid: seq<Row>)
    requires Answer(cs + [c], ordered, rows, out, x)
    ensures Answer(cs, ordered, rows, mid, x) && ClauseAnswer(c, AllOrderedAfter(cs, ordered), mid, out, x)
    decreases |cs|
  {
    var all := cs + [c];
    var next :| ClauseAnswer(all[0], ordered, rows, next, x) && Answer(all[1..], OrderedAfter(all[0], ordered), next, out, x);
    if cs == [] {
      assert all[1..] == [];
      mid := rows;
    } else {
      assert all[1..] == cs[1..] + [c];
      mid := LastClause(cs[1..], c, OrderedAfter(cs[0], ordered), next, out, x);
    }
  }

  lemma ColumnsAnyOrder(c: Clause, ordered: bool, a: seq<Row>, b: seq<Row>, out: seq<Row>, x: Exec)
    requires Perm(a, b) && Blind(c, x) && ColumnsAnswer(c, ordered, a, out, x)
    ensures ColumnsAnswer(c, false, b, out, x)
  {
    AnyColumns(c, ordered, a, out, x);
    BeforePerm(c, a, b, x);
    var list :| SortedPerm(OrderKeys(c), list, Before(c, a, x), x)
      && out == MapRows(After(c), LimitRows(list, c.skip, c.limit, x.env));
    assert SortedPerm(OrderKeys(c), list, Before(c, b, x), x);
  }

  /** So where the others do not depend on the order of rows, it is one of the
      last to their rows in some order; and to their rows in any order, where
      its grouping does not see it. */
  lemma LastAnswer(cs: seq<QueryClause>, c: Clause, rows: seq<Row>, out: seq<Row>, x: Exec) returns (mid: seq<Row>)
    requires AllOrderless(cs, x) && TotalPreorder(x.le)
    requires Answer(cs + [ReturnClause(c)], true, rows, out, x)
    ensures Perm(mid, RunClauses(cs, rows, x)) && ColumnsAnswer(c, AllOrderedAfter(cs, true), mid, out, x)
    ensures Blind(c, x) ==> ColumnsAnswer(c, false, RunClauses(cs, rows, x), out, x)
  {
    mid := LastClause(cs, ReturnClause(c), true, rows, out, x);
    OneAnswer(cs, true, rows, rows, mid, x);
    if Blind(c, x) { ColumnsAnyOrder(c, AllOrderedAfter(cs, true), mid, RunClauses(cs, rows, x), out, x); }
  }
}
