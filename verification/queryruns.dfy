/** However the plan of a query runs, the rows at its root are an answer of the
    query as written. */
module QueryRuns {
  import opened Values
  import opened Expressions
  import opened Sorting
  import opened Logical
  import opened Arena
  import opened Runs
  import opened Clauses
  import opened Answers
  import opened Planning
  import opened Placement
  import opened Walks
  import opened Queries
  import opened Conjuncts

  // ----- operators in a row -----

  /** The order of the operator's rows is fixed where that of its input is. */
  predicate Still(op: LogicalOp, ordered: bool) { op.Sort? || (KeepsOrder(op) && ordered) }

  predicate StillAll(ops: seq<LogicalOp>, ordered: bool) {
    if ops == [] then ordered else StillAll(ops[1..], Still(ops[0], ordered))
  }

  ghost predicate OpsMake(ops: seq<LogicalOp>, ordered: bool, rows: seq<Row>, out: seq<Row>, x: Exec)
    decreases |ops|
  {
    if ops == [] then out == rows
    else exists mid ::
      Makes(ops[0], Still(ops[0], ordered), rows, mid, x) && OpsMake(ops[1..], Still(ops[0], ordered), mid, out, x)
  }

  lemma OneMakes(op: LogicalOp, ordered: bool, rows: seq<Row>, out: seq<Row>, x: Exec)
    requires OpsMake([op], ordered, rows, out, x)
    ensures Makes(op, Still(op, ordered), rows, out, x)
  {
    assert [op][1..] == [];
  }

  lemma {:induction false} OpsSplit(
    a: seq<LogicalOp>, b: seq<LogicalOp>, ordered: bool, rows: seq<Row>, out: seq<Row>, x: Exec)
    returns (mid: seq<Row>)
    requires OpsMake(a + b, ordered, rows, out, x)
    ensures OpsMake(a, ordered, rows, mid, x) && OpsMake(b, StillAll(a, ordered), mid, out, x)
    decreases |a|
  {
    if a == [] {
      mid := rows;
      assert a + b == b;
    } else {
      assert (a + b)[1..] == a[1..] + b;
      var next :| Makes(a[0], Still(a[0], ordered), rows, next, x)
        && OpsMake(a[1..] + b, Still(a[0], ordered), next, out, x);
      mid := OpsSplit(a[1..], b, Still(a[0], ordered), next, out, x);
    }
  }

  /** Operators that neither count nor group rows make the same rows of them,
      each as often, in whatever order they come. */
  lemma {:induction false} UncountedOps(
    ops: seq<LogicalOp>, ordered: bool, rows: seq<Row>, other: seq<Row>, out: seq<Row>, x: Exec)
    requires OpsMake(ops, ordered, rows, out, x) && Perm(rows, other)
    requires forall op | op in ops :: OrderFree(op) && !op.Aggregation?
    ensures Perm(out, ApplyAll(ops, other, x))
    decreases |ops|
  {
    if ops != [] {
      var op := ops[0];
      assert op in ops;
      var mid :| Makes(op, Still(op, ordered), rows, mid, x) && OpsMake(ops[1..], Still(op, ordered), mid, out, x);
      MadeUncounted(op, Still(op, ordered), rows, mid, x);
      ApplyPerm(op, rows, other, x);
      UncountedOps(ops[1..], Still(op, ordered), mid, Apply(op, other, x), out, x);
    }
  }

  // ----- pushed onto an arena -----

  /** Every node of the arena has rows it may have. */
  ghost predicate Running(nodes: seq<LogicalOp>, run: Run, x: Exec) {
    Topological(nodes) && forall id: nat | id < |nodes| :: PermitsAll(nodes, run, id, x)
  }

  lemma PermitsAgrees(a: seq<LogicalOp>, b: seq<LogicalOp>, run: Run, id: nat, x: Exec, arg: Row)
    requires Topological(a) && Topological(b) && AgreeUpTo(a, b, id) && Permits(b, run, id, x, arg)
    ensures Permits(a, run, id, x, arg)
  {
    OrderedAgrees(a, b, id);
    if a[id].Limit? {
      assert a[id].input in Inputs(a[id]) && InputsBelow(a[id], id);
      OrderedAgrees(a, b, a[id].input);
    }
  }

  /** What runs above a prefix runs on the prefix. */
  lemma RunningBelow(a: seq<LogicalOp>, b: seq<LogicalOp>, run: Run, x: Exec)
    requires Running(b, run, x) && Topological(a) && |a| <= |b| && b[..|a|] == a
    ensures Running(a, run, x)
  {
    forall id: nat, arg | id < |a| ensures Permits(a, run, id, x, arg) {
      assert PermitsAll(b, run, id, x);
      PermitsAgrees(a, b, run, id, x, arg);
    }
  }

  lemma ApplyAtInput(op: LogicalOp, ordered: bool, id: nat, rows: seq<Row>, out: seq<Row>, x: Exec)
    requires ClauseOp(op) && Makes(WithInput(op, id), ordered, rows, out, x)
    ensures Makes(op, ordered, rows, out, x)
  {
    ApplyAnyInput(op, id, rows, x);
    assert op.Sort? ==> SortRows(op, rows, x) == SortRows(WithInput(op, id), rows, x);
  }

  lemma PushedMakes(nodes: seq<LogicalOp>, input: nat, op: LogicalOp, run: Run, x: Exec, arg: Row)
    requires Topological(nodes) && input < |nodes| && ClauseOp(op)
    requires Running(nodes + [WithInput(op, input)], run, x)
    ensures var next := nodes + [WithInput(op, input)];
      && Makes(op, Still(op, Ordered(nodes, input)), run(input, arg), run(|nodes|, arg), x)
      && Ordered(next, |nodes|) == Still(op, Ordered(nodes, input))
  {
    var next := nodes + [WithInput(op, input)];
    assert PermitsAll(next, run, |nodes|, x);
    assert Permits(next, run, |nodes|, x, arg);
    OrderedAgrees(nodes, next, input);
    ApplyAtInput(op, Still(op, Ordered(nodes, input)), input, run(input, arg), run(|nodes|, arg), x);
  }

  lemma {:induction false} OpsRun(
    nodes: seq<LogicalOp>, input: nat, ops: seq<LogicalOp>, run: Run, x: Exec, arg: Row)
    requires Topological(nodes) && input < |nodes| && forall i | 0 <= i < |ops| :: ClauseOp(ops[i])
    requires Running(PushAll(nodes, input, ops).0, run, x)
    ensures var (out, id) := PushAll(nodes, input, ops);
      OpsMake(ops, Ordered(nodes, input), run(input, arg), run(id, arg), x)
    decreases |ops|
  {
    if ops != [] {
      var next := nodes + [WithInput(ops[0], input)];
      assert forall c | c in Inputs(WithInput(ops[0], input)) :: c == input;
      PushTopological(nodes, WithInput(ops[0], input));
      assert forall i | 0 <= i < |ops[1..]| :: ops[1..][i] == ops[i + 1];
      PushAllDenotes(next, |nodes|, ops[1..], x, arg);
      RunningBelow(next, PushAll(nodes, input, ops).0, run, x);
      PushedMakes(nodes, input, ops[0], run, x, arg);
      OpsRun(next, |nodes|, ops[1..], run, x, arg);
    }
  }

  // ----- rows picked along an order -----

  lemma {:induction false} PermThroughMap(f: Row -> Row, rows: seq<Row>, list: seq<Row>) returns (of: seq<Row>)
    requires Perm(list, MapRows(f, rows))
    ensures Perm(of, rows) && MapRows(f, of) == list
    decreases |list|
  {
    if list == [] {
      PermLength(list, MapRows(f, rows));
      of := [];
    } else {
      var i := PermFind(list, MapRows(f, rows));
      MapRowsAt(f, rows, i);
      MapWithout(f, rows, i);
      var rest := PermThroughMap(f, rows[..i] + rows[i + 1..], list[1..]);
      of := [rows[i]] + rest;
      assert of[1..] == rest;
      assert rows == rows[..i] + [rows[i]] + rows[i + 1..];
    }
  }

  lemma {:induction false} MapConcat(f: Row -> Row, a: seq<Row>, b: seq<Row>)
    ensures MapRows(f, a + b) == MapRows(f, a) + MapRows(f, b)
  {
    if a == [] { assert a + b == b; } else {
      assert (a + b)[1..] == a[1..] + b;
      MapConcat(f, a[1..], b);
    }
  }

  lemma MapWithout(f: Row -> Row, rows: seq<Row>, i: nat)
    requires i < |rows|
    ensures MapRows(f, rows[..i] + rows[i + 1..]) == MapRows(f, rows)[..i] + MapRows(f, rows)[i + 1..]
  {
    var front, back := rows[..i], rows[i..];
    assert rows == front + back && back[1..] == rows[i + 1..];
    MapConcat(f, front, back);
    MapConcat(f, front, back[1..]);
    CutAt(MapRows(f, front), MapRows(f, back));
  }

  lemma CutAt(a: seq<Row>, b: seq<Row>)
    requires b != []
    ensures (a + b)[..|a|] == a && (a + b)[|a| + 1..] == b[1..]
  {}

  /** SKIP and LIMIT take a window of the list. */
  lemma LimitWindow(list: seq<Row>, c: Clause, env: Env) returns (from: nat, to: nat)
    ensures from <= to <= |list| && LimitRows(list, c.skip, c.limit, env) == list[from..to]
    ensures forall other: seq<Row> | |other| == |list| :: LimitRows(other, c.skip, c.limit, env) == other[from..to]
  {
    var skip := if c.skip.Some? then Count(c.skip.value, env) else 0;
    from := if skip <= |list| then skip else |list|;
    var n := if c.limit.Some? then Count(c.limit.value, env) else |list|;
    to := if from + n <= |list| then from + n else |list|;
  }

  lemma LimitedIn(list: seq<Row>, rows: seq<Row>, c: Clause, env: Env)
    requires Perm(list, rows)
    ensures forall r | r in LimitRows(list, c.skip, c.limit, env) :: r in rows
  {
    var from, to := LimitWindow(list, c, env);
    forall r | r in list[from..to] ensures r in rows { assert r in multiset(list); }
  }

  lemma Reordered(list: seq<Row>, from: nat, to: nat, mid: seq<Row>)
    requires from <= to <= |list| && Perm(mid, list[from..to])
    ensures var out := list[..from] + mid + list[to..];
      |out| == |list| && Perm(out, list) && out[from..to] == mid
  {
    PermLength(mid, list[from..to]);
    assert list == list[..from] + list[from..to] + list[to..];
  }

  /** A list whose window holds `mid`, in its order. */
  lemma WindowOrder(c: Clause, list: seq<Row>, mid: seq<Row>, env: Env) returns (other: seq<Row>)
    requires Perm(mid, LimitRows(list, c.skip, c.limit, env))
    ensures Perm(other, list) && LimitRows(other, c.skip, c.limit, env) == mid
  {
    var from, to := LimitWindow(list, c, env);
    Reordered(list, from, to, mid);
    other := list[..from] + mid + list[to..];
  }

  /** Where no key orders the rows, they may be picked in any order. */
  lemma PickedAnyOrder(c: Clause, f: Row -> Row, rows: seq<Row>, mid: seq<Row>, out: seq<Row>, x: Exec)
    requires Picked(c, [], f, rows, mid, x) && Perm(out, mid)
    ensures Picked(c, [], f, rows, out, x)
  {
    var list :| SortedPerm([], list, rows, x) && mid == MapRows(f, LimitRows(list, c.skip, c.limit, x.env));
    var of := PermThroughMap(f, LimitRows(list, c.skip, c.limit, x.env), out);
    var other := WindowOrder(c, list, of, x.env);
    assert SortedPerm([], other, rows, x);
  }

  /** Rows picked and then mapped. */
  lemma PickedThen(
    c: Clause, keys: seq<SortKey>, f: Row -> Row, g: Row -> Row, h: Row -> Row, ordered: bool,
    rows: seq<Row>, mid: seq<Row>, out: seq<Row>, x: Exec)
    requires Picked(c, keys, f, rows, mid, x) && SameOrAny(ordered, out, MapRows(g, mid)) && (keys != [] ==> ordered)
    requires forall r | r in rows :: g(f(r)) == h(r)
    ensures Picked(c, keys, h, rows, out, x)
  {
    var list :| SortedPerm(keys, list, rows, x) && mid == MapRows(f, LimitRows(list, c.skip, c.limit, x.env));
    LimitedIn(list, rows, c, x.env);
    MapTwice(f, g, h, LimitRows(list, c.skip, c.limit, x.env));
    assert Picked(c, keys, h, rows, MapRows(g, mid), x);
    if !ordered { PickedAnyOrder(c, h, rows, MapRows(g, mid), out, x); }
  }

  /** Rows picked of mapped ones, along keys that do not see the map. */
  lemma PickedThrough(
    c: Clause, a: seq<SortKey>, b: seq<SortKey>, f: Row -> Row, g: Row -> Row, h: Row -> Row,
    rows: seq<Row>, out: seq<Row>, x: Exec)
    requires Picked(c, a, f, MapRows(g, rows), out, x)
    requires forall r, s | r in rows && s in rows :: NotAfter(a, g(r), g(s), x.env, x.le) == NotAfter(b, r, s, x.env, x.le)
    requires forall r | r in rows :: f(g(r)) == h(r)
    ensures Picked(c, b, h, rows, out, x)
  {
    var list :| SortedPerm(a, list, MapRows(g, rows), x) && out == MapRows(f, LimitRows(list, c.skip, c.limit, x.env));
    var of := PermThroughMap(g, rows, list);
    forall i, j | 0 <= i < j < |of| ensures NotAfter(b, of[i], of[j], x.env, x.le) {
      MapRowsAt(g, of, i);
      MapRowsAt(g, of, j);
      assert of[i] in multiset(of) && of[j] in multiset(of);
      assert NotAfter(a, list[i], list[j], x.env, x.le);
    }
    assert SortedPerm(b, of, rows, x);
    MapLimit(g, of, c.skip, c.limit, x.env);
    LimitedIn(of, rows, c, x.env);
    MapTwice(g, f, h, LimitRows(of, c.skip, c.limit, x.env));
  }

  /** And the other way, where no key orders them. */
  lemma PickedOver(
    c: Clause, f: Row -> Row, g: Row -> Row, h: Row -> Row, rows: seq<Row>, out: seq<Row>, x: Exec)
    requires Picked(c, [], h, rows, out, x) && forall r | r in rows :: f(g(r)) == h(r)
    ensures Picked(c, [], f, MapRows(g, rows), out, x)
  {
    var list :| SortedPerm([], list, rows, x) && out == MapRows(h, LimitRows(list, c.skip, c.limit, x.env));
    MapRowsPerm(g, list, rows);
    assert SortedPerm([], MapRows(g, list), MapRows(g, rows), x);
    MapLimit(g, list, c.skip, c.limit, x.env);
    LimitedIn(list, rows, c, x.env);
    MapTwice(g, f, h, LimitRows(list, c.skip, c.limit, x.env));
  }

  // ----- sort and LIMIT -----

  lemma LimitOpsMake(c: Clause, ordered: bool, rows: seq<Row>, out: seq<Row>, x: Exec)
    requires OpsMake(LimitOps(c), ordered, rows, out, x)
    ensures LimitMakes(Limit(0, c.skip, c.limit), ordered, rows, out, x)
  {
    if c.skip.Some? || c.limit.Some? {
      OneMakes(Limit(0, c.skip, c.limit), ordered, rows, out, x);
    } else {
      assert SameOrAny(ordered, rows, rows) && out == LimitRows(rows, c.skip, c.limit, x.env);
    }
  }

  lemma LimitedOf(c: Clause, ordered: bool, rows: seq<Row>, out: seq<Row>, x: Exec) returns (list: seq<Row>)
    requires LimitMakes(Limit(0, c.skip, c.limit), ordered, rows, out, x)
    ensures SameOrAny(ordered, list, rows) && out == LimitRows(list, c.skip, c.limit, x.env)
    ensures out == MapRows(Same(), LimitRows(list, c.skip, c.limit, x.env))
  {
    list :| SameOrAny(ordered, list, rows) && out == LimitRows(list, c.skip, c.limit, x.env);
    MapIdentity(Same(), out);
  }

  lemma SortOpsMake(keys: seq<SortKey>, ordered: bool, rows: seq<Row>, out: seq<Row>, x: Exec)
    requires keys != [] && OpsMake(SortOps(keys), ordered, rows, out, x)
    ensures SortedPerm(keys, out, rows, x) && StillAll(SortOps(keys), ordered)
  {
    var sort := Sort(0, keys, None, None, 0);
    OneMakes(sort, ordered, rows, out, x);
    assert SortMakes(sort, rows, out, x);
    var list :| SortedPerm(keys, list, rows, x) && out == Cut(list, SortBound(None, None, x.env));
  }

  /** A sort, if there are keys, and a LIMIT, if there is one. */
  lemma TailMakes(
    c: Clause, keys: seq<SortKey>, ordered: bool, rows: seq<Row>, base: seq<Row>, out: seq<Row>, x: Exec)
    requires OpsMake(SortOps(keys) + LimitOps(c), ordered, rows, out, x) && Perm(rows, base)
    ensures Picked(c, keys, Same(), base, out, x)
  {
    if keys == [] {
      assert SortOps(keys) + LimitOps(c) == LimitOps(c);
      LimitOpsMake(c, ordered, rows, out, x);
      var list := LimitedOf(c, ordered, rows, out, x);
      assert SortedPerm([], list, base, x);
    } else {
      var mid := OpsSplit(SortOps(keys), LimitOps(c), ordered, rows, out, x);
      SortOpsMake(keys, ordered, rows, mid, x);
      LimitOpsMake(c, true, mid, out, x);
      var list := LimitedOf(c, true, mid, out, x);
      assert SortedPerm(keys, list, base, x);
    }
  }

  lemma {:induction false} StillConcat(a: seq<LogicalOp>, b: seq<LogicalOp>, ordered: bool)
    ensures StillAll(a + b, ordered) == StillAll(b, StillAll(a, ordered))
  {
    if a == [] { assert a + b == b; } else {
      assert (a + b)[1..] == a[1..] + b;
      StillConcat(a[1..], b, Still(a[0], ordered));
    }
  }

  lemma TailStill(c: Clause, keys: seq<SortKey>, ordered: bool)
    requires keys != []
    ensures StillAll(SortOps(keys) + LimitOps(c), ordered)
  {
    StillConcat(SortOps(keys), LimitOps(c), ordered);
  }

  // ----- the clause -----

  lemma ProjectionMakes(op: LogicalOp, ordered: bool, f: Row -> Row, rows: seq<Row>, out: seq<Row>, x: Exec)
    requires op.Projection? && !op.distinct && Makes(op, ordered, rows, out, x)
    requires forall r | r in rows :: ProjectRow(op.items, op.includeExisting, r, x.env) == f(r)
    ensures SameOrAny(ordered, out, MapRows(f, rows))
  {
    ProjectionMaps(op.input, false, op.items, op.includeExisting, f, rows, x);
  }

  /** Trimming the rows picked. */
  lemma TrimMakes(
    c: Clause, keys: seq<SortKey>, f: Row -> Row, ordered: bool, rows: seq<Row>, mid: seq<Row>, out: seq<Row>, x: Exec)
    requires Makes(TrimOp(c), ordered, mid, out, x) && Picked(c, keys, f, rows, mid, x) && (keys != [] ==> ordered)
    requires forall r | r in rows :: Outputs(c.items) <= f(r).Keys
    requires forall r | r in rows :: Only(Outputs(c.items))(f(r)) == Only(Outputs(c.items))(r)
    ensures Picked(c, keys, Only(Outputs(c.items)), rows, out, x)
  {
    var list :| SortedPerm(keys, list, rows, x) && mid == MapRows(f, LimitRows(list, c.skip, c.limit, x.env));
    LimitedIn(list, rows, c, x.env);
    forall r | r in mid ensures ProjectRow(Passthrough(c.items), false, r, x.env) == Only(Outputs(c.items))(r) {
      var w := MapMember(f, LimitRows(list, c.skip, c.limit, x.env), r);
      PassthroughTrims(c.items, r, x.env);
    }
    ProjectionMakes(TrimOp(c), ordered, Only(Outputs(c.items)), mid, out, x);
    PickedThen(c, keys, f, Only(Outputs(c.items)), Only(Outputs(c.items)), ordered, rows, mid, out, x);
  }

  lemma LimitFirst(c: Clause, ordered: bool, rows: seq<Row>, mid: seq<Row>, x: Exec)
    requires OpsMake(LimitOps(c), ordered, rows, mid, x)
    ensures Picked(c, [], Same(), rows, mid, x) && forall r | r in mid :: r in rows
  {
    LimitOpsMake(c, ordered, rows, mid, x);
    var list := LimitedOf(c, ordered, rows, mid, x);
    assert SortedPerm([], list, rows, x);
    LimitedIn(list, rows, c, x.env);
  }

  lemma ShownMakes(c: Clause, ordered: bool, rows: seq<Row>, mid: seq<Row>, out: seq<Row>, x: Exec)
    requires ClauseFits(c, rows) && forall r | r in mid :: r in rows
    requires Makes(Projection(0, false, c.items, c.includeExisting), ordered, mid, out, x)
    ensures SameOrAny(ordered, out, MapRows(Shown(c, x.env), mid))
  {
    forall r | r in mid ensures ProjectRow(c.items, c.includeExisting, r, x.env) == Shown(c, x.env)(r) {
      if c.includeExisting { WideRow(c.items, r, x.env); }
    }
    ProjectionMakes(Projection(0, false, c.items, c.includeExisting), ordered, Shown(c, x.env), mid, out, x);
  }

  lemma ShownAnswer(c: Clause, rows: seq<Row>, out: seq<Row>, x: Exec)
    requires InItsOrder(c) && Picked(c, [], Shown(c, x.env), rows, out, x)
    ensures ColumnsAnswer(c, false, rows, out, x)
  {
    forall r | r in rows ensures Trim(c)(Wide(c.items, x.env)(r)) == Shown(c, x.env)(r) { TrimOfWide(c, r, x.env); }
    PickedOver(c, Trim(c), Wide(c.items, x.env), Shown(c, x.env), rows, out, x);
  }

  lemma UnorderedParts(c: Clause)
    requires !Grouped(c) && !c.distinct && c.order == []
    ensures ClauseOps(c) == LimitOps(c) + [Projection(0, false, c.items, c.includeExisting)]
  {}

  lemma LastProjection(c: Clause, ordered: bool, rows: seq<Row>, mid: seq<Row>, out: seq<Row>, x: Exec)
    requires ClauseFits(c, rows) && Picked(c, [], Same(), rows, mid, x) && forall r | r in mid :: r in rows
    requires OpsMake([Projection(0, false, c.items, c.includeExisting)], ordered, mid, out, x)
    ensures Picked(c, [], Shown(c, x.env), rows, out, x)
  {
    var op := Projection(0, false, c.items, c.includeExisting);
    OneMakes(op, ordered, mid, out, x);
    ShownMakes(c, Still(op, ordered), rows, mid, out, x);
    PickedThen(c, [], Same(), Shown(c, x.env), Shown(c, x.env), Still(op, ordered), rows, mid, out, x);
  }

  /** Where the rows have their order, so have the limited and the projected
      ones. */
  lemma InOrderMakes(c: Clause, rows: seq<Row>, mid: seq<Row>, out: seq<Row>, x: Exec)
    requires ClauseFits(c, rows) && InItsOrder(c) && OpsMake(LimitOps(c), true, rows, mid, x)
    requires OpsMake([Projection(0, false, c.items, c.includeExisting)], true, mid, out, x)
    ensures ColumnsAnswer(c, true, rows, out, x)
  {
    var op, wide := Projection(0, false, c.items, c.includeExisting), MapRows(Wide(c.items, x.env), rows);
    LimitOpsMake(c, true, rows, mid, x);
    var list := LimitedOf(c, true, rows, mid, x);
    OneMakes(op, true, mid, out, x);
    LimitFirst(c, true, rows, mid, x);
    ShownMakes(c, true, rows, mid, out, x);
    MapLimit(Wide(c.items, x.env), rows, c.skip, c.limit, x.env);
    forall r | r in mid ensures Trim(c)(Wide(c.items, x.env)(r)) == Shown(c, x.env)(r) { TrimOfWide(c, r, x.env); }
    MapTwice(Wide(c.items, x.env), Trim(c), Shown(c, x.env), mid);
  }

  /** Without ORDER BY: a LIMIT, then the projection. */
  lemma UnorderedMakes(c: Clause, ordered: bool, rows: seq<Row>, out: seq<Row>, x: Exec)
    requires ClauseFits(c, rows) && InItsOrder(c) && OpsMake(ClauseOps(c), ordered, rows, out, x)
    ensures ColumnsAnswer(c, ordered, rows, out, x)
  {
    UnorderedParts(c);
    var mid := OpsSplit(LimitOps(c), [Projection(0, false, c.items, c.includeExisting)], ordered, rows, out, x);
    LimitsStill(c, ordered);
    if ordered {
      InOrderMakes(c, rows, mid, out, x);
    } else {
      LimitFirst(c, ordered, rows, mid, x);
      LastProjection(c, ordered, rows, mid, out, x);
      ShownAnswer(c, rows, out, x);
    }
  }

  lemma LimitsStill(c: Clause, ordered: bool)
    ensures StillAll(LimitOps(c), ordered) == ordered
  {
    if LimitOps(c) != [] { assert LimitOps(c)[1..] == []; }
  }

  lemma WideMakes(c: Clause, ordered: bool, rows: seq<Row>, out: seq<Row>, x: Exec)
    requires ClauseFits(c, rows) && Makes(Projection(0, false, c.items, true), ordered, rows, out, x)
    ensures Perm(out, MapRows(Wide(c.items, x.env), rows))
  {
    WideApplies(c, false, rows, x);
  }

  /** The keys as planned order the wide rows as the clause's keys do. */
  lemma ReadsPicked(c: Clause, rows: seq<Row>, out: seq<Row>, x: Exec)
    requires ClauseFits(c, rows)
    requires Picked(c, KeysOnReads(c.order, c.items), Same(), MapRows(Wide(c.items, x.env), rows), out, x)
    ensures Picked(c, c.order, Same(), MapRows(Wide(c.items, x.env), rows), out, x)
  {
    var wide, keys := MapRows(Wide(c.items, x.env), rows), KeysOnReads(c.order, c.items);
    forall r, s | r in wide && s in wide
      ensures NotAfter(keys, Same()(r), Same()(s), x.env, x.le) == NotAfter(c.order, r, s, x.env, x.le)
    {
      var a := MapMember(Wide(c.items, x.env), rows, r);
      var b := MapMember(Wide(c.items, x.env), rows, s);
      ReadsCompare(c, c.order, a, b, x.env, x.le);
    }
    MapIdentity(Same(), wide);
    PickedThrough(c, keys, c.order, Same(), Same(), Same(), wide, out, x);
  }

  function OrderedTail(c: Clause): seq<LogicalOp> { SortOps(KeysOnReads(c.order, c.items)) + LimitOps(c) }

  /** With ORDER BY: the wide rows, sorted and limited. */
  lemma SortedMakes(c: Clause, ordered: bool, rows: seq<Row>, mid: seq<Row>, x: Exec)
    requires ClauseFits(c, rows)
    requires OpsMake([Projection(0, false, c.items, true)] + OrderedTail(c), ordered, rows, mid, x)
    ensures Picked(c, c.order, Same(), MapRows(Wide(c.items, x.env), rows), mid, x)
  {
    var first := Projection(0, false, c.items, true);
    var base := OpsSplit([first], OrderedTail(c), ordered, rows, mid, x);
    OneMakes(first, ordered, rows, base, x);
    WideMakes(c, Still(first, ordered), rows, base, x);
    TailMakes(c, KeysOnReads(c.order, c.items), StillAll([first], ordered), base,
              MapRows(Wide(c.items, x.env), rows), mid, x);
    ReadsPicked(c, rows, mid, x);
  }

  lemma OrderedTrim(c: Clause, ordered: bool, rows: seq<Row>, mid: seq<Row>, out: seq<Row>, x: Exec)
    requires OpsMake([TrimOp(c)], ordered, mid, out, x) && ordered
    requires Picked(c, c.order, Same(), MapRows(Wide(c.items, x.env), rows), mid, x)
    ensures Picked(c, c.order, Only(Outputs(c.items)), MapRows(Wide(c.items, x.env), rows), out, x)
  {
    OneMakes(TrimOp(c), ordered, mid, out, x);
    WideHasColumns(c, rows, x);
    TrimMakes(c, c.order, Same(), Still(TrimOp(c), ordered), MapRows(Wide(c.items, x.env), rows), mid, out, x);
  }

  /** And trimmed. */
  lemma OrderedMakes(c: Clause, ordered: bool, rows: seq<Row>, out: seq<Row>, x: Exec)
    requires ClauseFits(c, rows) && !Grouped(c) && !c.distinct && c.order != []
    requires OpsMake(ClauseOps(c), ordered, rows, out, x)
    ensures ColumnsAnswer(c, ordered, rows, out, x)
  {
    var ops := [Projection(0, false, c.items, true)] + OrderedTail(c);
    var trim := if c.includeExisting then [] else [TrimOp(c)];
    assert ClauseOps(c) == ops + trim;
    var mid := OpsSplit(ops, trim, ordered, rows, out, x);
    SortedMakes(c, ordered, rows, mid, x);
    if !c.includeExisting {
      StillConcat([Projection(0, false, c.items, true)], OrderedTail(c), ordered);
      TailStill(c, KeysOnReads(c.order, c.items), StillAll([Projection(0, false, c.items, true)], ordered));
      OrderedTrim(c, StillAll(ops, ordered), rows, mid, out, x);
    }
  }

  lemma WideHasColumns(c: Clause, rows: seq<Row>, x: Exec)
    ensures forall r | r in MapRows(Wide(c.items, x.env), rows) :: Outputs(c.items) <= r.Keys
  {
    forall r | r in MapRows(Wide(c.items, x.env), rows) ensures Outputs(c.items) <= r.Keys {
      var p := MapMember(Wide(c.items, x.env), rows, r);
      ColumnKeys(c.items, p, x.env);
    }
  }

  lemma ProjectionOpsUncounted(c: Clause, kept: seq<Item>)
    ensures var ops := ProjectionOps(c, kept);
      ops != [] && OrderFree(ops[0]) && forall op | op in ops[1..] :: OrderFree(op) && !op.Aggregation?
  {}

  /** A grouping comes first, and is given the rows as they come. */
  lemma FirstThenAny(ops: seq<LogicalOp>, ordered: bool, rows: seq<Row>, out: seq<Row>, x: Exec)
    requires ops != [] && OpsMake(ops, ordered, rows, out, x) && OrderFree(ops[0])
    requires forall op | op in ops[1..] :: OrderFree(op) && !op.Aggregation?
    ensures Perm(out, ApplyAll(ops, rows, x))
  {
    var mid :| Makes(ops[0], Still(ops[0], ordered), rows, mid, x) && OpsMake(ops[1..], Still(ops[0], ordered), mid, out, x);
    MadeUncounted(ops[0], Still(ops[0], ordered), rows, mid, x);
    UncountedOps(ops[1..], Still(ops[0], ordered), mid, Apply(ops[0], rows, x), out, x);
  }

  /** Grouping and DISTINCT first, then the sort and the LIMIT. */
  lemma BaseMakes(
    c: Clause, kept: seq<Item>, ordered: bool, rows: seq<Row>, mid: seq<Row>, x: Exec)
    requires OpsMake(ProjectionOps(c, kept) + (SortOps(KeysOnOutputs(c.order, c.items)) + LimitOps(c)), ordered, rows, mid, x)
    ensures Picked(c, KeysOnOutputs(c.order, c.items), Same(), ApplyAll(ProjectionOps(c, kept), rows, x), mid, x)
  {
    var keys := KeysOnOutputs(c.order, c.items);
    var base := OpsSplit(ProjectionOps(c, kept), SortOps(keys) + LimitOps(c), ordered, rows, mid, x);
    ProjectionOpsUncounted(c, kept);
    FirstThenAny(ProjectionOps(c, kept), ordered, rows, base, x);
    TailMakes(c, keys, StillAll(ProjectionOps(c, kept), ordered), base, ApplyAll(ProjectionOps(c, kept), rows, x), mid, x);
  }

  lemma DistinctMakes(c: Clause, ordered: bool, rows: seq<Row>, out: seq<Row>, x: Exec)
    requires ClauseFits(c, rows) && c.distinct && OpsMake(ClauseOps(c), ordered, rows, out, x)
    ensures ColumnsAnswer(c, ordered, rows, out, x)
  {
    assert ClauseOps(c) == ProjectionOps(c, []) + (SortOps(KeysOnOutputs(c.order, c.items)) + LimitOps(c));
    BaseMakes(c, [], ordered, rows, out, x);
    if Grouped(c) { GroupedDistinct(c, rows, x); } else { PlainDistinct(c, rows, x); }
  }

  lemma PlainBase(c: Clause, rows: seq<Row>, x: Exec)
    requires Grouped(c) && !c.distinct && c.lifted == []
    ensures ApplyAll(ProjectionOps(c, []), rows, x) == Groups(c, rows, x)
  {
    PlainParts(c);
    ApplyOne(GroupOp(c), rows, x);
  }

  lemma PlainBefore(c: Clause, rows: seq<Row>, x: Exec)
    requires GroupColumns(x) && Grouped(c) && !c.distinct && c.lifted == []
    ensures Before(c, rows, x) == Groups(c, rows, x)
    ensures forall g | g in Groups(c, rows, x) :: Only(Outputs(c.items))(g) == g
  {
    PlainGroupsKeep(c, rows, x);
  }

  lemma PlainGroupsMake(c: Clause, ordered: bool, rows: seq<Row>, out: seq<Row>, x: Exec)
    requires GroupColumns(x) && Grouped(c) && !c.distinct && c.lifted == []
    requires OpsMake(ClauseOps(c), ordered, rows, out, x)
    ensures ColumnsAnswer(c, ordered, rows, out, x)
  {
    PlainParts(c);
    PlainBase(c, rows, x);
    BaseMakes(c, [], ordered, rows, out, x);
    PlainBefore(c, rows, x);
    PickedSame(c, KeysOnOutputs(c.order, c.items), Only(Outputs(c.items)), Groups(c, rows, x), out, x);
    PlainAnswer(c, ordered, rows, out, x);
  }

  lemma PlainAnswer(c: Clause, ordered: bool, rows: seq<Row>, out: seq<Row>, x: Exec)
    requires Grouped(c) && !c.distinct && Before(c, rows, x) == Groups(c, rows, x)
    requires Picked(c, KeysOnOutputs(c.order, c.items), Only(Outputs(c.items)), Groups(c, rows, x), out, x)
    ensures ColumnsAnswer(c, ordered, rows, out, x)
  {}

  lemma PlainParts(c: Clause)
    requires Grouped(c) && c.lifted == []
    ensures !c.distinct ==> ProjectionOps(c, []) == [GroupOp(c)]
    ensures ClauseOps(c) == ProjectionOps(c, []) + (SortOps(KeysOnOutputs(c.order, c.items)) + LimitOps(c))
  {
    NoneKept(c);
  }

  /** A map that keeps every row picks the same rows. */
  lemma PickedSame(c: Clause, keys: seq<SortKey>, f: Row -> Row, rows: seq<Row>, out: seq<Row>, x: Exec)
    requires Picked(c, keys, Same(), rows, out, x) && forall r | r in rows :: f(r) == r
    ensures Picked(c, keys, f, rows, out, x)
  {
    PickedIn(c, keys, rows, out, x);
    MapIdentity(f, out);
    PickedThen(c, keys, Same(), f, f, true, rows, out, out, x);
  }

  lemma PickedIn(c: Clause, keys: seq<SortKey>, rows: seq<Row>, out: seq<Row>, x: Exec)
    requires Picked(c, keys, Same(), rows, out, x)
    ensures forall r | r in out :: r in rows
  {
    var list :| SortedPerm(keys, list, rows, x) && out == MapRows(Same(), LimitRows(list, c.skip, c.limit, x.env));
    MapIdentity(Same(), LimitRows(list, c.skip, c.limit, x.env));
    LimitedIn(list, rows, c, x.env);
  }

  /** The sort sees only its columns, and orders the grouped rows the same. */
  lemma LiftedPicked(c: Clause, rows: seq<Row>, mid: seq<Row>, x: Exec)
    requires GroupColumns(x) && Grouped(c) && !c.distinct
    requires Picked(c, KeysOnOutputs(c.order, c.items), Same(), MapRows(Only(SortColumns(c)), Before(c, rows, x)), mid, x)
    ensures Picked(c, KeysOnOutputs(c.order, c.items), Only(SortColumns(c)), Before(c, rows, x), mid, x)
  {
    var wide, keys, f := Before(c, rows, x), KeysOnOutputs(c.order, c.items), Only(SortColumns(c));
    forall r, s | r in wide && s in wide
      ensures NotAfter(keys, f(r), f(s), x.env, x.le) == NotAfter(keys, r, s, x.env, x.le)
    {
      SortColumnsSuffice(c, rows, r, x);
      SortColumnsSuffice(c, rows, s, x);
      KeysAgree(c.order, c.items, f(r), r, f(s), s, x.env, x.le);
    }
    PickedThrough(c, keys, keys, Same(), f, f, wide, mid, x);
  }

  function LiftedOps(c: Clause): seq<LogicalOp> {
    ProjectionOps(c, Kept(c)) + (SortOps(KeysOnOutputs(c.order, c.items)) + LimitOps(c))
  }

  lemma LiftedMid(c: Clause, ordered: bool, rows: seq<Row>, mid: seq<Row>, x: Exec)
    requires ClauseFits(c, rows) && GroupColumns(x) && c.lifted != [] && !c.distinct
    requires OpsMake(LiftedOps(c), ordered, rows, mid, x)
    ensures Picked(c, KeysOnOutputs(c.order, c.items), Only(SortColumns(c)), Before(c, rows, x), mid, x)
  {
    BaseMakes(c, Kept(c), ordered, rows, mid, x);
    LiftedBase(c, rows, x);
    LiftedPicked(c, rows, mid, x);
  }

  lemma LiftedTrimmed(c: Clause, ordered: bool, rows: seq<Row>, mid: seq<Row>, out: seq<Row>, x: Exec)
    requires GroupColumns(x) && c.lifted != [] && !c.distinct && (c.order != [] ==> ordered)
    requires OpsMake([TrimOp(c)], ordered, mid, out, x)
    requires Picked(c, KeysOnOutputs(c.order, c.items), Only(SortColumns(c)), Before(c, rows, x), mid, x)
    ensures Picked(c, KeysOnOutputs(c.order, c.items), Only(Outputs(c.items)), Before(c, rows, x), out, x)
  {
    var wide := Before(c, rows, x);
    OneMakes(TrimOp(c), ordered, mid, out, x);
    forall r | r in wide ensures Outputs(c.items) <= Only(SortColumns(c))(r).Keys { SortColumnsSuffice(c, rows, r, x); }
    TrimMakes(c, KeysOnOutputs(c.order, c.items), Only(SortColumns(c)), Still(TrimOp(c), ordered), wide, mid, out, x);
  }

  lemma LiftedMakes(c: Clause, ordered: bool, rows: seq<Row>, out: seq<Row>, x: Exec)
    requires ClauseFits(c, rows) && GroupColumns(x) && c.lifted != [] && !c.distinct
    requires OpsMake(ClauseOps(c), ordered, rows, out, x)
    ensures ColumnsAnswer(c, ordered, rows, out, x)
  {
    LiftedParts(c);
    var mid := OpsSplit(LiftedOps(c), TrimIfKept(c), ordered, rows, out, x);
    LiftedMid(c, ordered, rows, mid, x);
    if Kept(c) == [] {
      assert SortColumns(c) == Outputs(c.items) && out == mid;
    } else {
      LiftedStill(c, ordered);
      LiftedTrimmed(c, StillAll(LiftedOps(c), ordered), rows, mid, out, x);
    }
    LiftedAnswer(c, ordered, rows, out, x);
  }

  function TrimIfKept(c: Clause): seq<LogicalOp> { if Kept(c) == [] then [] else [TrimOp(c)] }

  lemma LiftedParts(c: Clause)
    requires c.lifted != []
    ensures ClauseOps(c) == LiftedOps(c) + TrimIfKept(c)
  {
    assert ClauseOps(c) == ProjectionOps(c, Kept(c)) + SortOps(KeysOnOutputs(c.order, c.items)) + LimitOps(c) + TrimIfKept(c);
  }

  lemma LiftedAnswer(c: Clause, ordered: bool, rows: seq<Row>, out: seq<Row>, x: Exec)
    requires c.lifted != [] && !c.distinct
    requires Picked(c, KeysOnOutputs(c.order, c.items), Only(Outputs(c.items)), Before(c, rows, x), out, x)
    ensures ColumnsAnswer(c, ordered, rows, out, x)
  {}

  lemma LiftedStill(c: Clause, ordered: bool)
    ensures c.order != [] ==> StillAll(LiftedOps(c), ordered)
  {
    var keys, ops := KeysOnOutputs(c.order, c.items), ProjectionOps(c, Kept(c));
    StillConcat(ops, SortOps(keys) + LimitOps(c), ordered);
    if keys != [] { TailStill(c, keys, StillAll(ops, ordered)); }
  }

  /** Whatever the planned operators of a clause make of its input, in its
      order where that is fixed, is an answer of the clause. */
  lemma ClauseMakes(c: Clause, ordered: bool, rows: seq<Row>, out: seq<Row>, x: Exec)
    requires ClauseFits(c, rows) && GroupColumns(x) && OpsMake(ClauseOps(c), ordered, rows, out, x)
    ensures ColumnsAnswer(c, ordered, rows, out, x)
  {
    if c.distinct {
      DistinctMakes(c, ordered, rows, out, x);
    } else if !Grouped(c) {
      if c.order == [] { UnorderedMakes(c, ordered, rows, out, x); } else { OrderedMakes(c, ordered, rows, out, x); }
    } else if c.lifted == [] {
      PlainGroupsMake(c, ordered, rows, out, x);
    } else {
      LiftedMakes(c, ordered, rows, out, x);
    }
  }

  lemma FixedOrAny(c: Clause, ordered: bool, rows: seq<Row>, out: seq<Row>, x: Exec)
    requires ColumnsAnswer(c, true, rows, out, x)
    ensures ColumnsAnswer(c, ordered, rows, out, x)
  {
    AnyColumns(c, true, rows, out, x);
  }

  /** And so is whatever they have on the arena they are pushed onto. */
  lemma PlannedClauseRuns(nodes: seq<LogicalOp>, input: nat, c: Clause, ordered: bool, run: Run, x: Exec, arg: Row)
    requires Topological(nodes) && input < |nodes| && ClauseFits(c, run(input, arg)) && GroupColumns(x)
    requires Running(PushAll(nodes, input, ClauseOps(c)).0, run, x) && (ordered ==> Ordered(nodes, input))
    ensures ColumnsAnswer(c, ordered, run(input, arg), run(PushAll(nodes, input, ClauseOps(c)).1, arg), x)
  {
    ClauseOpsOnly(c);
    OpsRun(nodes, input, ClauseOps(c), run, x, arg);
    ClauseMakes(c, Ordered(nodes, input), run(input, arg), run(PushAll(nodes, input, ClauseOps(c)).1, arg), x);
    if Ordered(nodes, input) {
      FixedOrAny(c, ordered, run(input, arg), run(PushAll(nodes, input, ClauseOps(c)).1, arg), x);
    }
  }

  // ----- the order of the rows on top -----

  lemma {:induction false} OpsOrdered(nodes: seq<LogicalOp>, input: nat, ops: seq<LogicalOp>)
    requires Topological(nodes) && input < |nodes| && forall i | 0 <= i < |ops| :: ClauseOp(ops[i])
    ensures var (out, id) := PushAll(nodes, input, ops);
      Topological(out) && id < |out| && Ordered(out, id) == StillAll(ops, Ordered(nodes, input))
    decreases |ops|
  {
    if ops != [] {
      var op := WithInput(ops[0], input);
      assert forall c | c in Inputs(op) :: c == input;
      PushTopological(nodes, op);
      OrderedAgrees(nodes, nodes + [op], input);
      assert forall i | 0 <= i < |ops[1..]| :: ops[1..][i] == ops[i + 1];
      OpsOrdered(nodes + [op], |nodes|, ops[1..]);
    }
  }

  lemma TrimStill(c: Clause)
    ensures StillAll([TrimOp(c)], true) && StillAll([], true)
  {
    assert [TrimOp(c)][1..] == [];
  }

  /** A clause that sorts fixes the order of its rows, and one that only
      projects and counts keeps it. */
  lemma ClauseStill(c: Clause, ordered: bool)
    requires ColumnsOrdered(c, ordered)
    ensures StillAll(ClauseOps(c), ordered)
  {
    TrimStill(c);
    if InItsOrder(c) {
      var op := Projection(0, false, c.items, c.includeExisting);
      UnorderedParts(c);
      LimitsStill(c, ordered);
      StillConcat(LimitOps(c), [op], ordered);
      assert [op][1..] == [];
    } else if Grouped(c) || c.distinct {
      var ops, tail := ProjectionOps(c, Kept(c)), SortOps(KeysOnOutputs(c.order, c.items)) + LimitOps(c);
      assert ClauseOps(c) == (ops + tail) + TrimIfKept(c);
      StillConcat(ops + tail, TrimIfKept(c), ordered);
      StillConcat(ops, tail, ordered);
      TailStill(c, KeysOnOutputs(c.order, c.items), StillAll(ops, ordered));
    } else {
      var first, trim := [Projection(0, false, c.items, true)], if c.includeExisting then [] else [TrimOp(c)];
      assert ClauseOps(c) == (first + OrderedTail(c)) + trim;
      StillConcat(first + OrderedTail(c), trim, ordered);
      StillConcat(first, OrderedTail(c), ordered);
      TailStill(c, KeysOnReads(c.order, c.items), StillAll(first, ordered));
    }
  }

  lemma ClauseOrdered(nodes: seq<LogicalOp>, input: nat, c: Clause, ordered: bool)
    requires Topological(nodes) && input < |nodes| && (ordered ==> Ordered(nodes, input)) && ColumnsOrdered(c, ordered)
    ensures var (out, id) := PushAll(nodes, input, ClauseOps(c)); Topological(out) && id < |out| && Ordered(out, id)
  {
    ClauseOpsOnly(c);
    OpsOrdered(nodes, input, ClauseOps(c));
    ClauseStill(c, Ordered(nodes, input));
  }

  // ====================
  // What the rows of a query bind, at least and at most, from clause to clause.

  function ColumnsBind(c: Clause, bound: set<VarId>): set<VarId> {
    if c.includeExisting && !Grouped(c) then bound + Outputs(c.items) else Outputs(c.items)
  }

  /** The variables every row has after the clause, if it had `bound`. */
  function BoundAfter(c: QueryClause, bound: set<VarId>): set<VarId>
    decreases c, 0
  {
    match c
    case MatchClause(_, parts, _) => bound + PatternVars(parts)
    case UnwindClause(_, alias) => bound + {alias}
    case WithClause(columns, _) => ColumnsBind(columns, bound)
    case ReturnClause(columns) => ColumnsBind(columns, bound)
    case CallClause(body, unions, heads) =>
      bound + BranchesBind(unions, heads, AllBoundAfter(body, bound))
  }

  function AllBoundAfter(cs: seq<QueryClause>, bound: set<VarId>): set<VarId>
    decreases cs, 0
  {
    if cs == [] then bound else AllBoundAfter(cs[1..], BoundAfter(cs[0], bound))
  }

  /** What the body binds and every branch too. */
  function BranchesBind(bs: seq<CallBranch>, heads: seq<VarId>, bound: set<VarId>): set<VarId>
    decreases |bs|
  {
    if bs == [] then bound else BranchesBind(bs[1..], heads, bound * Outputs(BranchColumns(bs[0], heads)))
  }

  /** The variables some row may have after the clause, if it had at most
      `most`. */
  function MostAfter(c: QueryClause, most: set<VarId>): set<VarId>
    decreases c, 0
  {
    match c
    case CallClause(body, unions, heads) => most + AllMostAfter(body, most) + BranchesMost(unions, heads)
    case _ => BoundAfter(c, most)
  }

  function AllMostAfter(cs: seq<QueryClause>, most: set<VarId>): set<VarId>
    decreases cs, 0
  {
    if cs == [] then most else AllMostAfter(cs[1..], MostAfter(cs[0], most))
  }

  function BranchesMost(bs: seq<CallBranch>, heads: seq<VarId>): set<VarId>
    decreases |bs|
  {
    if bs == [] then {} else Outputs(BranchColumns(bs[0], heads)) + BranchesMost(bs[1..], heads)
  }

  // ----- rows under maps, filters and permutations -----

  lemma PermBetween(a: seq<Row>, b: seq<Row>, least: set<VarId>, most: set<VarId>)
    requires Perm(a, b) && Between(a, least, most)
    ensures Between(b, least, most)
  {
    forall row | row in b ensures row in a { assert row in multiset(b); }
  }

  lemma {:induction false} MapBetween(f: Row -> Row, rows: seq<Row>, least: set<VarId>, most: set<VarId>)
    requires forall row | row in rows :: least <= f(row).Keys <= most
    ensures Between(MapRows(f, rows), least, most)
  {
    if rows != [] { MapBetween(f, rows[1..], least, most); }
  }

  lemma {:induction false} FlatBetween<A>(f: A -> seq<Row>, s: seq<A>, least: set<VarId>, most: set<VarId>)
    requires forall a | a in s :: Between(f(a), least, most)
    ensures Between(FlatMap(f, s), least, most)
  {
    if s != [] { FlatBetween(f, s[1..], least, most); }
  }

  // ----- columns -----

  /** What the rows a clause sorts and counts bind. */
  lemma BeforeBetween(c: Clause, rows: seq<Row>, least: set<VarId>, most: set<VarId>, x: Exec)
    requires !Grouped(c) && Between(rows, least, most)
    ensures c.distinct ==> Between(Before(c, rows, x), ColumnsBind(c, least), ColumnsBind(c, most))
    ensures !c.distinct ==>
      Between(Before(c, rows, x), least + Outputs(c.items), most + Outputs(c.items))
  {
    forall row | row in rows
      ensures ColumnsBind(c, least) <= Shown(c, x.env)(row).Keys <= ColumnsBind(c, most)
      ensures least + Outputs(c.items) <= Wide(c.items, x.env)(row).Keys <= most + Outputs(c.items)
    {
      ColumnKeys(c.items, row, x.env);
    }
    if c.distinct {
      MapBetween(Shown(c, x.env), rows, ColumnsBind(c, least), ColumnsBind(c, most));
      DedupElements(MapRows(Shown(c, x.env), rows), {});
    } else {
      MapBetween(Wide(c.items, x.env), rows, least + Outputs(c.items), most + Outputs(c.items));
    }
  }

  lemma GroupedBefore(c: Clause, rows: seq<Row>, x: Exec)
    requires Grouped(c)
    ensures forall row | row in Before(c, rows, x) :: After(c)(row).Keys == Outputs(c.items)
  {
    var final, groups := FinalItems(c.items, c.lifted), Groups(c, rows, x);
    FinalOutputs(c.items, c.lifted);
    var f := if c.distinct then Narrow(final, x.env) else Wide(final, x.env);
    if c.distinct { DedupElements(MapRows(f, groups), {}); }
    forall row | row in Before(c, rows, x) ensures After(c)(row).Keys == Outputs(c.items) {
      var g := MapMember(f, groups, row);
      ColumnKeys(final, g, x.env);
    }
  }

  lemma AfterBetween(c: Clause, rows: seq<Row>, least: set<VarId>, most: set<VarId>, x: Exec)
    requires Between(rows, least, most)
    ensures forall row | row in Before(c, rows, x) ::
      ColumnsBind(c, least) <= After(c)(row).Keys <= ColumnsBind(c, most)
  {
    if Grouped(c) {
      GroupedBefore(c, rows, x);
    } else {
      BeforeBetween(c, rows, least, most, x);
    }
  }

  lemma ColumnsBetween(
    c: Clause, ordered: bool, rows: seq<Row>, out: seq<Row>, least: set<VarId>, most: set<VarId>, x: Exec)
    requires Between(rows, least, most) && ColumnsAnswer(c, ordered, rows, out, x)
    ensures Between(out, ColumnsBind(c, least), ColumnsBind(c, most))
  {
    AnyColumns(c, ordered, rows, out, x);
    var list :| SortedPerm(OrderKeys(c), list, Before(c, rows, x), x)
      && out == MapRows(After(c), LimitRows(list, c.skip, c.limit, x.env));
    LimitedIn(list, Before(c, rows, x), c, x.env);
    AfterBetween(c, rows, least, most, x);
    MapBetween(After(c), LimitRows(list, c.skip, c.limit, x.env), ColumnsBind(c, least), ColumnsBind(c, most));
  }

  lemma WithBetween(
    c: Clause, where: Option<Expr>, ordered: bool, rows: seq<Row>, out: seq<Row>, least: set<VarId>,
    most: set<VarId>, x: Exec)
    requires Between(rows, least, most) && WithAnswer(c, where, ordered, rows, out, x)
    ensures Between(out, ColumnsBind(c, least), ColumnsBind(c, most))
  {
    var mid :| ColumnsAnswer(c, ordered, rows, mid, x)
      && SameOrAny(ColumnsOrdered(c, ordered), out, Keep(WhereList(where), mid, x.env));
    ColumnsBetween(c, ordered, rows, mid, least, most, x);
    KeepBetween(WhereList(where), mid, x.env, ColumnsBind(c, least), ColumnsBind(c, most));
    PermBetween(Keep(WhereList(where), mid, x.env), out, ColumnsBind(c, least), ColumnsBind(c, most));
  }

  // ----- patterns -----

  lemma {:induction false} PatternBetween(
    parts: seq<Part>, rows: seq<Row>, least: set<VarId>, most: set<VarId>, x: Exec)
    requires Between(rows, least, most)
    ensures Between(MatchPattern(parts, rows, x), least + PatternVars(parts), most + PatternVars(parts))
    decreases |parts|
  {
    if parts != [] {
      var p := parts[0];
      PartBetween(p, rows, least, most, x);
      PatternBetween(parts[1..], MatchPart(p, rows, x), least + PartVars(p),
                     most + PartVars(p), x);
      assert least + PartVars(p) + PatternVars(parts[1..]) == least + PatternVars(parts);
      assert most + PartVars(p) + PatternVars(parts[1..]) == most + PatternVars(parts);
    }
  }

  lemma MatchesBetween(
    parts: seq<Part>, where: Option<Expr>, rows: seq<Row>, least: set<VarId>,
    most: set<VarId>, x: Exec)
    requires Between(rows, least, most)
    ensures Between(Matches(parts, where, rows, x), least + PatternVars(parts), most + PatternVars(parts))
  {
    PatternBetween(parts, rows, least, most, x);
    KeepBetween(WhereList(where), MatchPattern(parts, rows, x), x.env, least + PatternVars(parts),
                most + PatternVars(parts));
  }

  // ----- OPTIONAL MATCH, UNWIND, CALL -----

  lemma OrNullBetween(
    parts: seq<Part>, where: Option<Expr>, row: Row, least: set<VarId>, most: set<VarId>, x: Exec)
    requires least <= row.Keys <= most
    ensures Between(OrNull(row, Matches(parts, where, [row], x), Binders(parts)),
                    least + PatternVars(parts), most + PatternVars(parts))
  {
    MatchesBetween(parts, where, [row], least, most, x);
    NullExtendBinds(row, Binders(parts));
    BindersAll(parts);
  }

  lemma OptionalBetween(
    parts: seq<Part>, where: Option<Expr>, rows: seq<Row>, least: set<VarId>,
    most: set<VarId>, x: Exec)
    requires Between(rows, least, most)
    ensures Between(RunClause(MatchClause(true, parts, where), rows, x),
                    least + PatternVars(parts), most + PatternVars(parts))
  {
    var f := (row: Row) => OrNull(row, Matches(parts, where, [row], x), Binders(parts));
    forall row | row in rows ensures Between(f(row), least + PatternVars(parts), most + PatternVars(parts)) {
      OrNullBetween(parts, where, row, least, most, x);
    }
    FlatBetween(f, rows, least + PatternVars(parts), most + PatternVars(parts));
  }

  lemma {:induction false} UnwindBinds(row: Row, alias: VarId, values: seq<Value>)
    ensures Between(UnwindRows(row, alias, values), row.Keys + {alias}, row.Keys + {alias})
  {
    if values != [] { UnwindBinds(row, alias, values[1..]); }
  }

  lemma {:induction false} UnwindBetween(
    expr: Expr, alias: VarId, rows: seq<Row>, least: set<VarId>, most: set<VarId>, x: Exec)
    requires Between(rows, least, most)
    ensures Between(StepAll(Unwind(0, expr, alias), rows, x), least + {alias}, most + {alias})
  {
    if rows != [] {
      UnwindBetween(expr, alias, rows[1..], least, most, x);
      var v := Eval(expr, rows[0], x.env);
      if v.List? { UnwindBinds(rows[0], alias, v.items); }
      assert rows[0] in rows;
    }
  }

  lemma {:induction false} MergeAllBetween(row: Row, inners: seq<Row>, least: set<VarId>, most: set<VarId>)
    requires Between(inners, least, most)
    ensures Between(MergeAll(row, inners, false), row.Keys + least, row.Keys + most)
  {
    if inners != [] { MergeAllBetween(row, inners[1..], least, most); }
  }

  lemma CalledBetween(
    row: Row, all: seq<Row>, bs: seq<CallBranch>, low: set<VarId>, high: set<VarId>, least: set<VarId>, most: set<VarId>)
    requires Between(all, low, high) && least <= row.Keys <= most
    ensures Between(Called(row, all, bs), least + low, most + high)
  {
    DedupElements(all, {});
    MergeAllBetween(row, all, low, high);
    MergeAllBetween(row, Dedup(all, {}), low, high);
  }

  lemma {:induction false} BranchesBindLess(bs: seq<CallBranch>, heads: seq<VarId>, bound: set<VarId>)
    ensures BranchesBind(bs, heads, bound) <= bound
    decreases |bs|
  {
    if bs != [] { BranchesBindLess(bs[1..], heads, bound * Outputs(BranchColumns(bs[0], heads))); }
  }

  lemma {:induction false} BranchesBetween(
    bs: seq<CallBranch>, heads: seq<VarId>, bound: set<VarId>, row: Row, out: seq<Row>, x: Exec)
    requires BranchesAnswer(bs, heads, row, out, x)
    ensures Between(out, BranchesBind(bs, heads, bound), BranchesMost(bs, heads))
    decreases |bs|
  {
    if bs != [] {
      var items := BranchColumns(bs[0], heads);
      var low, high := BranchesBind(bs, heads, bound), BranchesMost(bs, heads);
      var mid, rest :| Answer(bs[0].body, true, [row], mid, x) && BranchesAnswer(bs[1..], heads, row, rest, x)
        && Joined(bs[0], heads, mid, rest, out, x);
      BranchesBindLess(bs[1..], heads, bound * Outputs(items));
      forall r | r in mid ensures low <= Narrow(items, x.env)(r).Keys <= high { ColumnKeys(items, r, x.env); }
      MapBetween(Narrow(items, x.env), mid, low, high);
      BranchesBetween(bs[1..], heads, bound * Outputs(items), row, rest, x);
      PermBetween(MapRows(Narrow(items, x.env), mid) + rest, out, low, high);
    }
  }

  // ----- whole queries -----

  /** Every answer of the clauses binds what they bind. */
  lemma {:induction false} AnswerBetween(
    cs: seq<QueryClause>, ordered: bool, rows: seq<Row>, out: seq<Row>, least: set<VarId>, most: set<VarId>, x: Exec)
    requires Answer(cs, ordered, rows, out, x) && Between(rows, least, most)
    ensures Between(out, AllBoundAfter(cs, least), AllMostAfter(cs, most))
    decreases cs, 2
  {
    if cs != [] {
      var mid :| ClauseAnswer(cs[0], ordered, rows, mid, x) && Answer(cs[1..], OrderedAfter(cs[0], ordered), mid, out, x);
      ClauseBetween(cs[0], ordered, rows, mid, least, most, x);
      AnswerBetween(cs[1..], OrderedAfter(cs[0], ordered), mid, out, BoundAfter(cs[0], least), MostAfter(cs[0], most), x);
    }
  }

  lemma {:induction false} ClauseBetween(
    c: QueryClause, ordered: bool, rows: seq<Row>, out: seq<Row>, least: set<VarId>, most: set<VarId>, x: Exec)
    requires ClauseAnswer(c, ordered, rows, out, x) && Between(rows, least, most)
    ensures Between(out, BoundAfter(c, least), MostAfter(c, most))
    decreases c, 2
  {
    match c
    case MatchClause(false, parts, where) =>
      MatchesBetween(parts, where, rows, least, most, x);
      PermBetween(RunClause(c, rows, x), out, BoundAfter(c, least), MostAfter(c, most));
    case MatchClause(true, parts, where) =>
      OptionalBetween(parts, where, rows, least, most, x);
      PermBetween(RunClause(c, rows, x), out, BoundAfter(c, least), MostAfter(c, most));
    case UnwindClause(expr, alias) =>
      UnwindBetween(expr, alias, rows, least, most, x);
      PermBetween(RunClause(c, rows, x), out, BoundAfter(c, least), MostAfter(c, most));
    case WithClause(columns, where) => WithBetween(columns, where, ordered, rows, out, least, most, x);
    case ReturnClause(columns) => ColumnsBetween(columns, ordered, rows, out, least, most, x);
    case CallClause(_, _, _) => CallBetween(c, ordered, rows, out, least, most, x);
  }

  lemma {:induction false} CallBetween(
    c: QueryClause, ordered: bool, rows: seq<Row>, out: seq<Row>, least: set<VarId>, most: set<VarId>, x: Exec)
    requires c.CallClause? && ClauseAnswer(c, ordered, rows, out, x) && Between(rows, least, most)
    ensures Between(out, BoundAfter(c, least), MostAfter(c, most))
    decreases c, 1
  {
    var low := BranchesBind(c.unions, c.returnVars, AllBoundAfter(c.body, least));
    var high := AllMostAfter(c.body, most) + BranchesMost(c.unions, c.returnVars);
    var f: Row -> seq<Row> :| (forall row | row in rows :: BodyAnswer(c, row, f(row), x))
      && Perm(out, FlatMap(CalledEach(f, c.unions), rows));
    forall row | row in rows ensures Between(CalledEach(f, c.unions)(row), least + low, most + high) {
      BodyBetween(c, row, f(row), least, most, x);
      CalledBetween(row, f(row), c.unions, low, high, least, most);
    }
    FlatBetween(CalledEach(f, c.unions), rows, least + low, most + high);
    PermBetween(FlatMap(CalledEach(f, c.unions), rows), out, least + low, most + high);
    assert most + high == MostAfter(c, most);
  }

  lemma {:induction false} BodyBetween(
    c: QueryClause, row: Row, out: seq<Row>, least: set<VarId>, most: set<VarId>, x: Exec)
    requires c.CallClause? && BodyAnswer(c, row, out, x) && least <= row.Keys <= most
    ensures Between(out, BranchesBind(c.unions, c.returnVars, AllBoundAfter(c.body, least)),
                    AllMostAfter(c.body, most) + BranchesMost(c.unions, c.returnVars))
    decreases c, 0
  {
    var first, others :| Answer(c.body, true, [row], first, x)
      && BranchesAnswer(c.unions, c.returnVars, row, others, x) && out == first + others;
    var all, low := AllBoundAfter(c.body, least), BranchesBind(c.unions, c.returnVars, AllBoundAfter(c.body, least));
    AnswerBetween(c.body, true, [row], first, least, most, x);
    BranchesBindLess(c.unions, c.returnVars, all);
    BranchesBetween(c.unions, c.returnVars, all, row, others, x);
    BetweenBoth(first, others, all, low, AllMostAfter(c.body, most), BranchesMost(c.unions, c.returnVars));
  }

  lemma BetweenBoth(a: seq<Row>, b: seq<Row>, low: set<VarId>, lower: set<VarId>, high: set<VarId>, other: set<VarId>)
    requires Between(a, low, high) && Between(b, lower, other) && lower <= low
    ensures Between(a + b, lower, high + other)
  {}

  // ====================
  // What a grouping is given directly after WITH ... ORDER BY, and what a collect makes
  // of it.

  /** What is left of `list`, the rows `w` sorted, for the next clause. */
  function Given(w: Clause, where: Option<Expr>, list: seq<Row>, env: Env): seq<Row> {
    Keep(WhereList(where), MapRows(After(w), LimitRows(list, w.skip, w.limit, env)), env)
  }

  /** `list` is the rows `w` makes of some answer `prior` of the clauses before
      it, in order of its keys, and `out` an answer of `c` to what is left of
      the list, in that order. */
  ghost predicate AfterSort(
    cs: seq<QueryClause>, w: Clause, where: Option<Expr>, c: Clause, rows: seq<Row>, prior: seq<Row>, list: seq<Row>,
    out: seq<Row>, x: Exec)
  {
    && Answer(cs, true, rows, prior, x) && SortedPerm(OrderKeys(w), list, Before(w, prior, x), x)
    && ColumnsAnswer(c, true, Given(w, where, list, x.env), out, x)
  }

  /** An answer of clauses that end in WITH ... ORDER BY and one more is given
      a sorted list. */
  lemma SortedThen(
    cs: seq<QueryClause>, w: Clause, where: Option<Expr>, c: Clause, rows: seq<Row>, out: seq<Row>, x: Exec)
    returns (prior: seq<Row>, list: seq<Row>)
    requires w.order != []
    requires Answer(cs + [WithClause(w, where)] + [ReturnClause(c)], true, rows, out, x)
    ensures AfterSort(cs, w, where, c, rows, prior, list, out, x)
  {
    var with := WithClause(w, where);
    var given := LastClause(cs + [with], ReturnClause(c), true, rows, out, x);
    prior := LastClause(cs, with, true, rows, given, x);
    OrderedLast(cs, with, true);
    list := SortedWith(w, where, AllOrderedAfter(cs, true), prior, given, x);
  }

  lemma SortedWith(w: Clause, where: Option<Expr>, ordered: bool, prior: seq<Row>, given: seq<Row>, x: Exec)
    returns (list: seq<Row>)
    requires w.order != [] && WithAnswer(w, where, ordered, prior, given, x)
    ensures SortedPerm(OrderKeys(w), list, Before(w, prior, x), x) && given == Given(w, where, list, x.env)
  {
    var mid :| ColumnsAnswer(w, ordered, prior, mid, x)
      && SameOrAny(ColumnsOrdered(w, ordered), given, Keep(WhereList(where), mid, x.env));
    list :| SortedPerm(OrderKeys(w), list, Before(w, prior, x), x)
      && mid == MapRows(After(w), LimitRows(list, w.skip, w.limit, x.env));
  }

  lemma {:induction false} OrderedLast(cs: seq<QueryClause>, c: QueryClause, ordered: bool)
    ensures AllOrderedAfter(cs + [c], ordered) == OrderedAfter(c, AllOrderedAfter(cs, ordered))
    decreases |cs|
  {
    var all := cs + [c];
    if cs == [] {
      assert all[1..] == [];
    } else {
      assert all[1..] == cs[1..] + [c];
      OrderedLast(cs[1..], c, OrderedAfter(cs[0], ordered));
    }
  }

  // ----- collect -----

  /** The values of `e` on the rows, in their order, without nulls. */
  function Collected(e: Expr, rows: seq<Row>, env: Env): seq<Value> {
    if rows == [] then []
    else
      var rest := Collected(e, rows[1..], env);
      var value := Eval(e, rows[0], env);
      if value.Null? then rest else [value] + rest
  }

  /** The rows `pick` takes, in their order. */
  function PickedRows(pick: Row -> bool, rows: seq<Row>): seq<Row> {
    if rows == [] then []
    else
      var rest := PickedRows(pick, rows[1..]);
      if pick(rows[0]) then [rows[0]] + rest else rest
  }

  /** `values` are those of `e` on some of the rows, in their order. */
  ghost predicate CollectedOf(values: Value, e: Expr, rows: seq<Row>, env: Env) {
    exists pick: Row -> bool :: values == List(Collected(e, PickedRows(pick, rows), env))
  }

  /** Each group holds, as `v`, the values of `e` on its rows, collected in
      the order the rows come. */
  ghost predicate Collects(c: Clause, e: Expr, v: VarId, x: Exec) {
    && Grouped(c) && !c.distinct && c.lifted == [] && v in Outputs(c.items)
    && forall rows, g | g in Groups(c, rows, x) :: v in g && CollectedOf(g[v], e, rows, x.env)
  }

  /** A row of an answer is one the clause made, through its last step. */
  lemma AnswerFrom(c: Clause, ordered: bool, rows: seq<Row>, out: seq<Row>, r: Row, x: Exec) returns (g: Row)
    requires ColumnsAnswer(c, ordered, rows, out, x) && r in out
    ensures g in Before(c, rows, x) && After(c)(g) == r
  {
    AnyColumns(c, ordered, rows, out, x);
    var list :| SortedPerm(OrderKeys(c), list, Before(c, rows, x), x)
      && out == MapRows(After(c), LimitRows(list, c.skip, c.limit, x.env));
    g := MapMember(After(c), LimitRows(list, c.skip, c.limit, x.env), r);
    LimitedIn(list, Before(c, rows, x), c, x.env);
  }

  lemma CollectAnswer(c: Clause, e: Expr, v: VarId, ordered: bool, rows: seq<Row>, out: seq<Row>, r: Row, x: Exec)
    requires Collects(c, e, v, x) && GroupColumns(x) && ColumnsAnswer(c, ordered, rows, out, x) && r in out
    ensures v in r && CollectedOf(r[v], e, rows, x.env)
  {
    var g := AnswerFrom(c, ordered, rows, out, r, x);
    PlainBefore(c, rows, x);
    assert g in Groups(c, rows, x);
  }

  /** The rows are in order of one key. */
  ghost predicate InOrderOf(key: SortKey, rows: seq<Row>, x: Exec) {
    forall i, j | 0 <= i < j < |rows| ::
      ValueNotAfter(key, Eval(key.expr, rows[i], x.env), Eval(key.expr, rows[j], x.env), x.le)
  }

  ghost predicate ValuesInOrder(key: SortKey, values: seq<Value>, le: Rank) {
    forall i, j | 0 <= i < j < |values| :: ValueNotAfter(key, values[i], values[j], le)
  }

  lemma SortedLead(keys: seq<SortKey>, rows: seq<Row>, x: Exec)
    requires keys != [] && Sorted(keys, rows, x.env, x.le)
    ensures InOrderOf(keys[0], rows, x)
  {
    forall i, j | 0 <= i < j < |rows|
      ensures ValueNotAfter(keys[0], Eval(keys[0].expr, rows[i], x.env), Eval(keys[0].expr, rows[j], x.env), x.le)
    {
      assert NotAfter(keys, rows[i], rows[j], x.env, x.le);
    }
  }

  lemma LimitInOrder(key: SortKey, rows: seq<Row>, c: Clause, x: Exec)
    requires InOrderOf(key, rows, x)
    ensures InOrderOf(key, LimitRows(rows, c.skip, c.limit, x.env), x)
  {
    var from, to := LimitWindow(rows, c, x.env);
  }

  lemma MapInOrder(key: SortKey, f: Row -> Row, rows: seq<Row>, x: Exec)
    requires InOrderOf(key, rows, x)
    requires forall row | row in rows :: Eval(key.expr, f(row), x.env) == Eval(key.expr, row, x.env)
    ensures InOrderOf(key, MapRows(f, rows), x)
  {
    forall i | 0 <= i < |rows| ensures MapRows(f, rows)[i] == f(rows[i]) && rows[i] in rows { MapRowsAt(f, rows, i); }
  }

  lemma {:induction false} KeepInOrder(key: SortKey, es: seq<Expr>, rows: seq<Row>, x: Exec)
    requires InOrderOf(key, rows, x)
    ensures InOrderOf(key, Keep(es, rows, x.env), x)
  {
    if rows != [] {
      KeepInOrder(key, es, rows[1..], x);
      var rest := Keep(es, rows[1..], x.env);
      KeepElements(es, rows[1..], x.env);
      forall j | 0 <= j < |rest|
        ensures ValueNotAfter(key, Eval(key.expr, rows[0], x.env), Eval(key.expr, rest[j], x.env), x.le)
      {
        assert rest[j] in rows[1..];
        var k :| 0 <= k < |rows[1..]| && rows[1..][k] == rest[j];
        assert rows[k + 1] == rest[j];
      }
    }
  }

  lemma {:induction false} CollectedFrom(e: Expr, rows: seq<Row>, env: Env, value: Value)
    requires value in Collected(e, rows, env)
    ensures exists k :: 0 <= k < |rows| && Eval(e, rows[k], env) == value
  {
    if Eval(e, rows[0], env) != value {
      CollectedFrom(e, rows[1..], env, value);
      var k :| 0 <= k < |rows[1..]| && Eval(e, rows[1..][k], env) == value;
      assert rows[k + 1] == rows[1..][k];
    }
  }

  lemma {:induction false} CollectedInOrder(key: SortKey, rows: seq<Row>, x: Exec)
    requires InOrderOf(key, rows, x)
    ensures ValuesInOrder(key, Collected(key.expr, rows, x.env), x.le)
  {
    if rows != [] {
      var rest := Collected(key.expr, rows[1..], x.env);
      CollectedInOrder(key, rows[1..], x);
      forall j | 0 <= j < |rest| ensures ValueNotAfter(key, Eval(key.expr, rows[0], x.env), rest[j], x.le) {
        CollectedFrom(key.expr, rows[1..], x.env, rest[j]);
        var k :| 0 <= k < |rows[1..]| && Eval(key.expr, rows[1..][k], x.env) == rest[j];
        assert rows[k + 1] == rows[1..][k];
      }
    }
  }

  /** The key reads only what the clause leaves of a row. */
  ghost predicate KeyKept(w: Clause, key: SortKey) {
    !Grouped(w) && !w.distinct && (w.includeExisting || Free(key.expr) <= Outputs(w.items))
  }

  lemma TrimKeepsKey(w: Clause, key: SortKey, row: Row, env: Env)
    requires KeyKept(w, key)
    ensures Eval(key.expr, After(w)(row), env) == Eval(key.expr, row, env)
  {
    Coincidence(key.expr, After(w)(row), row, env);
  }

  /** What is left of a sorted list is in order of its leading key. */
  lemma GivenInOrder(w: Clause, where: Option<Expr>, list: seq<Row>, x: Exec)
    requires w.order != [] && KeyKept(w, w.order[0]) && Sorted(w.order, list, x.env, x.le)
    ensures InOrderOf(w.order[0], Given(w, where, list, x.env), x)
  {
    var key, kept := w.order[0], LimitRows(list, w.skip, w.limit, x.env);
    SortedLead(w.order, list, x);
    LimitInOrder(key, list, w, x);
    forall row | row in kept ensures Eval(key.expr, After(w)(row), x.env) == Eval(key.expr, row, x.env) {
      TrimKeepsKey(w, key, row, x.env);
    }
    MapInOrder(key, After(w), kept, x);
    KeepInOrder(key, WhereList(where), MapRows(After(w), kept), x);
  }

  lemma {:induction false} PickInOrder(key: SortKey, pick: Row -> bool, rows: seq<Row>, x: Exec)
    requires InOrderOf(key, rows, x)
    ensures InOrderOf(key, PickedRows(pick, rows), x)
    ensures forall row | row in PickedRows(pick, rows) :: row in rows
  {
    if rows != [] {
      PickInOrder(key, pick, rows[1..], x);
      var rest := PickedRows(pick, rows[1..]);
      forall j | 0 <= j < |rest|
        ensures ValueNotAfter(key, Eval(key.expr, rows[0], x.env), Eval(key.expr, rest[j], x.env), x.le)
      {
        assert rest[j] in rows[1..];
        var k :| 0 <= k < |rows[1..]| && rows[1..][k] == rest[j];
        assert rows[k + 1] == rest[j];
      }
    }
  }

  /** So collecting the key directly after WITH ... ORDER BY gives, in every
      group, its values in that order. */
  lemma CollectsSorted(
    cs: seq<QueryClause>, w: Clause, where: Option<Expr>, c: Clause, v: VarId, rows: seq<Row>, prior: seq<Row>,
    list: seq<Row>, out: seq<Row>, r: Row, x: Exec)
    requires w.order != [] && KeyKept(w, w.order[0]) && GroupColumns(x)
    requires Collects(c, w.order[0].expr, v, x) && AfterSort(cs, w, where, c, rows, prior, list, out, x) && r in out
    ensures v in r && r[v].List? && ValuesInOrder(w.order[0], r[v].items, x.le)
  {
    var key, given := w.order[0], Given(w, where, list, x.env);
    CollectAnswer(c, key.expr, v, true, given, out, r, x);
    GivenInOrder(w, where, list, x);
    var pick: Row -> bool :| r[v] == List(Collected(key.expr, PickedRows(pick, given), x.env));
    PickInOrder(key, pick, given, x);
    CollectedInOrder(key, PickedRows(pick, given), x);
  }

  // ----- rows no clause orders -----

  /** One group, of all rows. */
  ghost predicate CollectsAll(c: Clause, e: Expr, v: VarId, x: Exec) {
    forall rows :: Groups(c, rows, x) == [map[v := List(Collected(e, rows, x.env))]]
  }

  lemma CollectedTwo(e: Expr, a: Row, b: Row, env: Env)
    requires !Eval(e, a, env).Null? && !Eval(e, b, env).Null?
    ensures Collected(e, [a, b], env) == [Eval(e, a, env), Eval(e, b, env)]
  {
    assert [a, b][1..] == [b] && [b][1..] == [];
    assert Collected(e, [b], env) == [Eval(e, b, env)];
  }

  lemma OtherRow(a: Row, b: Row)
    requires a != b
    ensures !Perm([a], [b])
  {
    assert a in multiset([a]) && a !in multiset([b]);
  }

  lemma OtherList(v: VarId, a: seq<Value>, b: seq<Value>)
    requires a != b
    ensures !Perm([map[v := List(a)]], [map[v := List(b)]])
  {
    var one: Row, other: Row := map[v := List(a)], map[v := List(b)];
    assert one[v] != other[v];
    OtherRow(one, other);
  }

  /** Collecting rows that come in another order gives another list. */
  lemma CollectSeesOrder(c: Clause, e: Expr, v: VarId, a: Row, b: Row, x: Exec)
    requires CollectsAll(c, e, v, x) && !Eval(e, a, x.env).Null? && !Eval(e, b, x.env).Null?
    requires Eval(e, a, x.env) != Eval(e, b, x.env)
    ensures Perm([a, b], [b, a]) && !Perm(Groups(c, [a, b], x), Groups(c, [b, a], x))
  {
    CollectedTwo(e, a, b, x.env);
    CollectedTwo(e, b, a, x.env);
    assert Collected(e, [a, b], x.env)[0] != Collected(e, [b, a], x.env)[0];
    OtherList(v, Collected(e, [a, b], x.env), Collected(e, [b, a], x.env));
    assert Perm([a, b], [b, a]);
  }

  // ====================
  // However the plan of a query runs, the rows at its root are an answer of the query.

  // ----- a run of row-wise operators -----

  /** The operator reads `base`, or one of those from `n` on. */
  predicate Above(op: LogicalOp, n: nat, base: Option<nat>) {
    && (RowWise(op) || op.Argument?)
    && (Upstream(op) == base || (Upstream(op).Some? && n <= Upstream(op).value))
  }

  /** From `n` on both hold the same row-wise operators over `base`. */
  ghost predicate Alike(a: seq<LogicalOp>, b: seq<LogicalOp>, n: nat, base: Option<nat>) {
    n <= |a| == |b| && forall k | n <= k < |a| :: a[k] == b[k] && Above(a[k], n, base)
  }

  ghost function Through(nodes: seq<LogicalOp>, id: nat, x: Exec): Row -> seq<Row>
    requires Topological(nodes) && id < |nodes|
  {
    (row: Row) => Denote(nodes, id, x, row)
  }

  lemma {:induction false} StepAllThrough(
    op: LogicalOp, g: Row -> seq<Row>, h: Row -> seq<Row>, rows: seq<Row>, x: Exec)
    requires RowWise(op) && forall row | row in rows :: h(row) == StepAll(op, g(row), x)
    ensures StepAll(op, FlatMap(g, rows), x) == FlatMap(h, rows)
  {
    if rows != [] {
      StepAllConcat(op, g(rows[0]), FlatMap(g, rows[1..]), x);
      StepAllThrough(op, g, h, rows[1..], x);
    }
  }

  lemma {:induction false} FlatMapUnits(g: Row -> seq<Row>, rows: seq<Row>)
    requires forall row | row in rows :: g(row) == [row]
    ensures FlatMap(g, rows) == rows
  {
    if rows != [] { FlatMapUnits(g, rows[1..]); }
  }

  lemma ThroughStep(nodes: seq<LogicalOp>, id: nat, x: Exec, row: Row)
    requires Topological(nodes) && id < |nodes| && RowWise(nodes[id])
    ensures Upstream(nodes[id]).Some? ==> Upstream(nodes[id]).value < id
    ensures Through(nodes, id, x)(row) == StepAll(nodes[id], InputRows(nodes, Upstream(nodes[id]), x, row), x)
  {
    if Upstream(nodes[id]).Some? { assert Upstream(nodes[id]).value in Inputs(nodes[id]) && InputsBelow(nodes[id], id); }
  }

  /** A node's rows, from those of its input, row by row. */
  lemma StepRun(
    nodes: seq<LogicalOp>, unit: seq<LogicalOp>, id: nat, g: Row -> seq<Row>, rows: seq<Row>, run: Run, x: Exec, arg: Row)
    requires Topological(unit) && Running(nodes, run, x) && id < |nodes| == |unit| && nodes[id] == unit[id]
    requires RowWise(nodes[id]) && Perm(Fed(run, Upstream(nodes[id]), arg), FlatMap(g, rows))
    requires Upstream(unit[id]).Some? ==> Upstream(unit[id]).value < |unit|
    requires forall row | row in rows :: g(row) == InputRows(unit, Upstream(unit[id]), x, row)
    ensures Perm(run(id, arg), FlatMap(Through(unit, id, x), rows))
  {
    var op := nodes[id];
    assert PermitsAll(nodes, run, id, x);
    RowWisePermits(nodes, run, id, x, arg);
    StepAllPerm(op, Fed(run, Upstream(op), arg), FlatMap(g, rows), x);
    forall row | row in rows ensures Through(unit, id, x)(row) == StepAll(op, g(row), x) { ThroughStep(unit, id, x, row); }
    StepAllThrough(op, g, Through(unit, id, x), rows, x);
  }

  lemma UnitRun(nodes: seq<LogicalOp>, id: nat, run: Run, x: Exec, arg: Row)
    requires Running(nodes, run, x) && id < |nodes| && nodes[id].Argument?
    ensures run(id, arg) == [arg]
  {
    assert PermitsAll(nodes, run, id, x);
    assert Permits(nodes, run, id, x, arg);
    PermLength(run(id, arg), [arg]);
    assert run(id, arg)[0] in multiset([arg]);
  }

  /** Row-wise operators over `base` make of its rows what the same operators
      make of each row by itself. */
  lemma {:induction false} PipedRun(
    nodes: seq<LogicalOp>, unit: seq<LogicalOp>, n: nat, base: Option<nat>, id: nat, run: Run, x: Exec, arg: Row)
    requires Topological(unit) && Alike(nodes, unit, n, base) && Running(nodes, run, x)
    requires base.Some? ==> base.value < n && unit[base.value] == Argument
    requires id < |nodes| && (base == Some(id) || n <= id)
    ensures Perm(run(id, arg), FlatMap(Through(unit, id, x), Fed(run, base, arg)))
    decreases id
  {
    var rows := Fed(run, base, arg);
    if base == Some(id) {
      FlatMapUnits(Through(unit, id, x), rows);
    } else if nodes[id].Argument? {
      UnitRun(nodes, id, run, x, arg);
    } else if Upstream(nodes[id]) == base {
      var g := (row: Row) => InputRows(unit, base, x, row);
      FlatMapUnits(g, rows);
      StepRun(nodes, unit, id, g, rows, run, x, arg);
    } else {
      var u := Upstream(nodes[id]).value;
      assert u in Inputs(unit[id]) && InputsBelow(unit[id], id);
      PipedRun(nodes, unit, n, base, u, run, x, arg);
      StepRun(nodes, unit, id, Through(unit, u, x), rows, run, x, arg);
    }
  }

  // ----- MATCH -----

  /** The planner in the same place on both arenas. */
  ghost predicate SameState(s: State, t: State, n: nat, base: Option<nat>) {
    Alike(s.nodes, t.nodes, n, base) && s.pending == t.pending && s.available == t.available
  }

  ghost predicate SamePlan(p: Planned, q: Planned, n: nat, base: Option<nat>) {
    SameState(p.st, q.st, n, base) && p.node == q.node && (base == Some(p.node) || n <= p.node)
  }

  lemma AttachAlike(p: Planned, q: Planned, checks: seq<Expr>, n: nat, base: Option<nat>)
    requires SamePlan(p, q, n, base)
    ensures SamePlan(AttachReady(p, checks), AttachReady(q, checks), n, base)
  {}

  lemma BindAlike(s: State, t: State, op: LogicalOp, binds: set<VarId>, checks: seq<Expr>, n: nat, base: Option<nat>)
    requires SameState(s, t, n, base) && Above(op, n, base)
    ensures SamePlan(AttachReady(Bind(s, op, binds), checks), AttachReady(Bind(t, op, binds), checks), n, base)
  {
    AttachAlike(Bind(s, op, binds), Bind(t, op, binds), checks, n, base);
  }

  lemma {:induction false} StepsAlike(p: Planned, q: Planned, src: VarId, steps: seq<ChainStep>, n: nat, base: Option<nat>)
    requires SamePlan(p, q, n, base)
    ensures SamePlan(PlanSteps(p, src, steps), PlanSteps(q, src, steps), n, base)
    decreases |steps|
  {
    if steps != [] {
      var s := steps[0];
      BindAlike(p.st, q.st, Expand(p.node, src, s.rel.v, s.node.v, s.rel.types, s.rel.direction, s.rel.props),
                StepVars(s), StepChecks(s), n, base);
      StepsAlike(PlanStep(p, src, s), PlanStep(q, src, s), s.node.v, steps[1..], n, base);
    }
  }

  lemma PartAlike(
    s: State, t: State, input: Option<nat>, part: Part, n: nat, base: Option<nat>)
    requires SameState(s, t, n, base) && (input == base || (input.Some? && n <= input.value))
    ensures SamePlan(PlanPart(s, input, part), PlanPart(t, input, part), n, base)
  {
    var c := Walked(part);
    BindAlike(s, t, NodeScan(input, c.head.v, c.head.labels), {c.head.v}, NodeChecks(c.head), n, base);
    StepsAlike(PlanNode(s, input, c.head), PlanNode(t, input, c.head), c.head.v, c.steps, n, base);
    if part.binding.Some? {
      var p, q := PlanChain(s, input, c), PlanChain(t, input, c);
      BindAlike(p.st, q.st, PathBuild(p.node, part.binding.value, NodeVarsOf(part.chain), RelVarsOf(part.chain.steps)),
                {part.binding.value}, [], n, base);
    }
  }

  lemma {:induction false} PartsAlike(
    p: Planned, q: Planned, parts: seq<Part>, n: nat, base: Option<nat>)
    requires SamePlan(p, q, n, base)
    ensures SamePlan(PlanParts(p, parts), PlanParts(q, parts), n, base)
    decreases |parts|
  {
    if parts != [] {
      PartAlike(p.st, q.st, Some(p.node), parts[0], n, base);
      PartsAlike(PlanPart(p.st, Some(p.node), parts[0]), PlanPart(q.st, Some(q.node), parts[0]),
                 parts[1..], n, base);
    }
  }

  lemma PatternAlike(s: State, t: State, input: Option<nat>, parts: seq<Part>, n: nat)
    requires SameState(s, t, n, input)
    ensures SamePlan(PlanPattern(s, input, parts), PlanPattern(t, input, parts), n, input)
  {
    if parts == [] {
      if input.None? { assert Above(Argument, n, input); }
    } else {
      PartAlike(s, t, input, parts[0], n, input);
      PartsAlike(PlanPart(s, input, parts[0]), PlanPart(t, input, parts[0]),
                 parts[1..], n, input);
    }
  }

  lemma ResidualAlike(p: Planned, q: Planned, residual: seq<Expr>, n: nat, base: Option<nat>)
    requires SamePlan(p, q, n, base)
    ensures SamePlan(WithResidual(p, residual), WithResidual(q, residual), n, base)
  {}

  lemma WhereAlike(
    a: seq<LogicalOp>, b: seq<LogicalOp>, input: Option<nat>, parts: seq<Part>, where: Option<Expr>)
    requires |a| == |b|
    ensures var m, o := PlanWithWhere(a, input, parts, where), PlanWithWhere(b, input, parts, where);
      SamePlan(m.planned, o.planned, |a|, input) && m.residual == o.residual
  {
    var pending := ToPlace(ConjunctsOfWhere(where), 0, PatternVars(parts));
    PatternAlike(Initial(a, pending), Initial(b, pending), input, parts, |a|);
  }

  lemma MatchAlike(
    a: seq<LogicalOp>, b: seq<LogicalOp>, input: Option<nat>, parts: seq<Part>, where: Option<Expr>)
    requires |a| == |b|
    ensures SamePlan(PlanMatch(a, input, parts, where), PlanMatch(b, input, parts, where), |a|, input)
  {
    var m, o := PlanWithWhere(a, input, parts, where), PlanWithWhere(b, input, parts, where);
    WhereAlike(a, b, input, parts, where);
    SameResidual(a, input, parts, where);
    SameResidual(b, input, parts, where);
    ResidualAlike(m.planned, o.planned, m.residual, |a|, input);
  }

  function Units(n: nat): (nodes: seq<LogicalOp>)
    ensures |nodes| == n && forall k | 0 <= k < n :: nodes[k] == Argument
  {
    if n == 0 then [] else Units(n - 1) + [Argument]
  }

  lemma UnitsStart(n: nat, input: Option<nat>)
    requires input.Some? ==> input.value < n
    ensures Start(Units(n), input)
  {
    forall k | 0 <= k < n ensures Inputs(Units(n)[k]) == [] {}
  }

  lemma UnitInput(n: nat, input: Option<nat>, x: Exec, row: Row)
    requires (input.Some? ==> input.value < n) && Topological(Units(n))
    ensures InputRows(Units(n), input, x, row) == [row]
  {}

  /** What the pattern makes of one row, on an arena of unit rows. */
  lemma UnitMatches(
    n: nat, input: Option<nat>, parts: seq<Part>, where: Option<Expr>, x: Exec, row: Row)
    requires (input.Some? ==> input.value < n) && PathsFresh(parts, {})
    ensures var q := PlanMatch(Units(n), input, parts, where);
      && Topological(q.st.nodes) && q.node < |q.st.nodes| && n <= |q.st.nodes| && q.st.nodes[..n] == Units(n)
      && Denote(q.st.nodes, q.node, x, row) == Matches(parts, where, [row], x)
  {
    UnitsStart(n, input);
    MatchGrows(Units(n), input, parts, where);
    UnitInput(n, input, x, row);
    WhereKeepsRows(Units(n), input, parts, where, x, row);
  }

  /** A run of a planned MATCH has the matches, each as often. */
  lemma MatchRuns(
    nodes: seq<LogicalOp>, input: Option<nat>, parts: seq<Part>, where: Option<Expr>,
    run: Run, x: Exec, arg: Row)
    requires (input.Some? ==> input.value < |nodes|) && PathsFresh(parts, {})
    requires Running(PlanMatch(nodes, input, parts, where).st.nodes, run, x)
    ensures var p := PlanMatch(nodes, input, parts, where);
      Perm(run(p.node, arg), Matches(parts, where, Fed(run, input, arg), x))
  {
    var n, rows := |nodes|, Fed(run, input, arg);
    var p, q := PlanMatch(nodes, input, parts, where), PlanMatch(Units(n), input, parts, where);
    MatchAlike(nodes, Units(n), input, parts, where);
    UnitMatches(n, input, parts, where, x, arg);
    forall row ensures Denote(q.st.nodes, q.node, x, row) == Matches(parts, where, [row], x) {
      UnitMatches(n, input, parts, where, x, row);
    }
    assert input.Some? ==> q.st.nodes[input.value] == q.st.nodes[..n][input.value];
    PipedRun(p.st.nodes, q.st.nodes, n, input, p.node, run, x, arg);
    FlatMapSame(Through(q.st.nodes, q.node, x), MatchEach(parts, where, x), rows);
    MatchesEach(parts, where, rows, x);
  }

  // ----- where the planner's assumptions hold -----

  /** Path variables are fresh, and what a clause passes on is bound; rows
      bind at least `least` and at most `most`. */
  ghost predicate ClausesFit(cs: seq<QueryClause>, least: set<VarId>, most: set<VarId>)
    decreases cs, 0
  {
    cs == [] || (ClauseFit(cs[0], least, most) && ClausesFit(cs[1..], BoundAfter(cs[0], least), MostAfter(cs[0], most)))
  }

  ghost predicate ClauseFit(c: QueryClause, least: set<VarId>, most: set<VarId>)
    decreases c, 0
  {
    match c
    case MatchClause(optional, parts, _) => PathsFresh(parts, {}) && (optional ==> PathVars(parts) !! most)
    case UnwindClause(_, _) => true
    case WithClause(columns, _) => ColumnsFit(columns, least)
    case ReturnClause(columns) => ColumnsFit(columns, least)
    case CallClause(body, unions, _) => ClausesFit(body, least, most) && UnionsFit(unions, least, most)
  }

  ghost predicate UnionsFit(bs: seq<CallBranch>, least: set<VarId>, most: set<VarId>)
    decreases bs, 0
  {
    bs == [] || (ClausesFit(bs[0].body, least, most) && UnionsFit(bs[1..], least, most))
  }

  /** Outputs are distinct, and new unless they pass a bound variable on;
      hidden columns are apart from them, and none is kept under DISTINCT. */
  ghost predicate ColumnsFit(c: Clause, bound: set<VarId>) {
    && DistinctOutputs(c.items) && FreshItems(c.items, ItemVars(c.items))
    && (forall item | item in c.items && item.expr == Variable(item.output) :: item.output in bound)
    && Outputs(c.lifted) !! Outputs(c.items)
    && (c.distinct ==> Kept(c) == [])
  }

  lemma ColumnsFitRows(c: Clause, rows: seq<Row>, least: set<VarId>, most: set<VarId>)
    requires ColumnsFit(c, least) && Between(rows, least, most)
    ensures ClauseFits(c, rows)
  {}

  // ----- clause by clause -----

  lemma UnitFed(nodes: seq<LogicalOp>, input: Option<nat>, run: Run, x: Exec, arg: Row)
    requires Running(OrUnit(nodes, input).0, run, x) && (input.Some? ==> input.value < |nodes|)
    ensures run(OrUnit(nodes, input).1, arg) == Fed(run, input, arg)
  {
    if input.None? { UnitRun(OrUnit(nodes, input).0, |nodes|, run, x, arg); }
  }

  /** The order of the rows of the input is fixed. */
  ghost predicate FedInOrder(nodes: seq<LogicalOp>, input: Option<nat>)
    requires Topological(nodes)
  {
    input.Some? ==> input.value < |nodes| && Ordered(nodes, input.value)
  }

  lemma UnitOrdered(nodes: seq<LogicalOp>, input: Option<nat>)
    requires Start(nodes, input) && FedInOrder(nodes, input)
    ensures var (first, up) := OrUnit(nodes, input); Topological(first) && up < |first| && Ordered(first, up)
  {
    OrUnitGrows(nodes, input);
  }

  lemma UnwindRun(
    nodes: seq<LogicalOp>, input: Option<nat>, expr: Expr, alias: VarId, ordered: bool, run: Run, x: Exec, arg: Row)
    requires Start(nodes, input) && (ordered ==> FedInOrder(nodes, input))
    requires Running(PlanClause(nodes, input, UnwindClause(expr, alias)).0, run, x)
    ensures var c := UnwindClause(expr, alias);
      ClauseAnswer(c, ordered, Fed(run, input, arg), run(PlanClause(nodes, input, c).1, arg), x)
  {
    var (first, up) := OrUnit(nodes, input);
    var op := Unwind(up, expr, alias);
    var all := first + [op];
    OrUnitGrows(nodes, input);
    UnwindSite(nodes, input, expr, alias);
    RunningBelow(first, all, run, x);
    UnitFed(nodes, input, run, x, arg);
    UnwindTop(first, up, expr, alias, run, x, arg);
    if ordered {
      UnitOrdered(nodes, input);
      OrderedAgrees(first, all, up);
    }
    UnwindIsAnswer(up, expr, alias, ordered, Ordered(all, |first|), run(up, arg), run(|first|, arg), x);
  }

  lemma UnwindSite(nodes: seq<LogicalOp>, input: Option<nat>, expr: Expr, alias: VarId)
    ensures var (first, up) := OrUnit(nodes, input);
      PlanClause(nodes, input, UnwindClause(expr, alias)) == (first + [Unwind(up, expr, alias)], |first|)
  {}

  lemma UnwindTop(first: seq<LogicalOp>, up: nat, expr: Expr, alias: VarId, run: Run, x: Exec, arg: Row)
    requires Topological(first) && up < |first| && Running(first + [Unwind(up, expr, alias)], run, x)
    ensures var all := first + [Unwind(up, expr, alias)];
      SameOrAny(Ordered(all, |first|), run(|first|, arg), StepAll(Unwind(up, expr, alias), run(up, arg), x))
  {
    var all := first + [Unwind(up, expr, alias)];
    assert PermitsAll(all, run, |first|, x);
    RowWisePermits(all, run, |first|, x, arg);
  }

  lemma UnwindIsAnswer(
    up: nat, expr: Expr, alias: VarId, ordered: bool, kept: bool, rows: seq<Row>, out: seq<Row>, x: Exec)
    requires ordered ==> kept
    requires SameOrAny(kept, out, StepAll(Unwind(up, expr, alias), rows, x))
    ensures ClauseAnswer(UnwindClause(expr, alias), ordered, rows, out, x)
  {
    StepAllDetached(Unwind(up, expr, alias), rows, x);
  }

  lemma MatchesRun(
    nodes: seq<LogicalOp>, parts: seq<Part>, where: Option<Expr>, run: Run, x: Exec)
    requires PathsFresh(parts, {})
    requires Running(PlanMatch(nodes, None, parts, where).st.nodes, run, x)
    ensures var p := PlanMatch(nodes, None, parts, where);
      forall row :: Perm(run(p.node, row), Matches(parts, where, [row], x))
  {
    forall row
      ensures Perm(run(PlanMatch(nodes, None, parts, where).node, row),
                   Matches(parts, where, [row], x))
    {
      MatchRuns(nodes, None, parts, where, run, x, row);
    }
  }

  lemma OptionalPermits(all: seq<LogicalOp>, run: Run, x: Exec, arg: Row)
    requires Running(all, run, x) && all != [] && all[|all| - 1].OptionalMatch?
    ensures var op := all[|all| - 1]; Perm(run(|all| - 1, arg), FlatMap(OptionalEach(run, op), run(op.input, arg)))
  {
    assert PermitsAll(all, run, |all| - 1, x) && Permits(all, run, |all| - 1, x, arg);
  }

  /** A top node over an optional pattern. */
  lemma OptionalTopRun(
    op: LogicalOp, parts: seq<Part>, where: Option<Expr>, most: set<VarId>, run: Run,
    rows: seq<Row>, out: seq<Row>, x: Exec)
    requires PathVars(parts) !! most
    requires op.OptionalMatch? && op.newVars == Binders(parts) && Perm(out, FlatMap(OptionalEach(run, op), rows))
    requires forall row | row in rows ::
      row.Keys <= most && Perm(run(op.inner, row), Matches(parts, where, [row], x))
    ensures Perm(out, RunClause(MatchClause(true, parts, where), rows, x))
  {
    var g := (row: Row) => OrNull(row, Matches(parts, where, [row], x), Binders(parts));
    forall row | row in rows ensures Perm(OptionalEach(run, op)(row), g(row)) {
      OptionalRowsPerm(row, run(op.inner, row), Matches(parts, where, [row], x), op.newVars);
      OptionalRow(parts, where, row, x);
    }
    FlatMapPermEach(OptionalEach(run, op), g, rows);
  }

  lemma OptionalRunning(
    nodes: seq<LogicalOp>, input: Option<nat>, parts: seq<Part>, where: Option<Expr>,
    run: Run, x: Exec, arg: Row)
    requires Start(nodes, input)
    requires Running(PlanClause(nodes, input, MatchClause(true, parts, where)).0, run, x)
    ensures var (first, up) := OrUnit(nodes, input);
      Running(PlanMatch(first, None, parts, where).st.nodes, run, x) && run(up, arg) == Fed(run, input, arg)
  {
    var (first, up) := OrUnit(nodes, input);
    var p := PlanMatch(first, None, parts, where);
    InnerMatchGrows(nodes, input, parts, where);
    RunningBelow(p.st.nodes, p.st.nodes + [OptionalMatch(up, p.node, Binders(parts))], run, x);
    RunningBelow(first, p.st.nodes, run, x);
    UnitFed(nodes, input, run, x, arg);
  }

  lemma OptionalRun(
    nodes: seq<LogicalOp>, input: Option<nat>, parts: seq<Part>, where: Option<Expr>,
    least: set<VarId>, most: set<VarId>, run: Run, x: Exec, arg: Row)
    requires Start(nodes, input) && PathsFresh(parts, {}) && PathVars(parts) !! most
    requires Between(Fed(run, input, arg), least, most)
    requires Running(PlanClause(nodes, input, MatchClause(true, parts, where)).0, run, x)
    ensures var c := MatchClause(true, parts, where);
      Perm(run(PlanClause(nodes, input, c).1, arg), RunClause(c, Fed(run, input, arg), x))
  {
    var (first, up) := OrUnit(nodes, input);
    var p := PlanMatch(first, None, parts, where);
    var op := OptionalMatch(up, p.node, Binders(parts));
    OptionalRunning(nodes, input, parts, where, run, x, arg);
    MatchesRun(first, parts, where, run, x);
    OptionalPermits(p.st.nodes + [op], run, x, arg);
    OptionalTopRun(op, parts, where, most, run, run(up, arg), run(|p.st.nodes|, arg), x);
  }

  lemma ColumnsRunOn(
    nodes: seq<LogicalOp>, input: Option<nat>, c: Clause, ordered: bool, least: set<VarId>, most: set<VarId>,
    run: Run, x: Exec, arg: Row)
    requires Start(nodes, input) && (ordered ==> FedInOrder(nodes, input)) && GroupColumns(x) && ColumnsFit(c, least)
    requires Between(Fed(run, input, arg), least, most)
    requires var (first, up) := OrUnit(nodes, input); Running(PushAll(first, up, ClauseOps(c)).0, run, x)
    ensures var (first, up) := OrUnit(nodes, input);
      ColumnsAnswer(c, ordered, Fed(run, input, arg), run(PushAll(first, up, ClauseOps(c)).1, arg), x)
  {
    var (first, up) := OrUnit(nodes, input);
    OrUnitGrows(nodes, input);
    ClauseOpsOnly(c);
    PushAllDenotes(first, up, ClauseOps(c), x, arg);
    RunningBelow(first, PushAll(first, up, ClauseOps(c)).0, run, x);
    UnitFed(nodes, input, run, x, arg);
    ColumnsFitRows(c, Fed(run, input, arg), least, most);
    if ordered { UnitOrdered(nodes, input); }
    PlannedClauseRuns(first, up, c, ordered, run, x, arg);
  }

  lemma WhereRun(a: Site, where: Option<Expr>, run: Run, x: Exec, arg: Row)
    requires Topological(a.0) && a.1 < |a.0| && Running(PushWhere(a, where).0, run, x)
    ensures Running(a.0, run, x)
    ensures SameOrAny(Ordered(a.0, a.1), run(PushWhere(a, where).1, arg), Keep(WhereList(where), run(a.1, arg), x.env))
  {
    match where
    case None => KeepAll([], run(a.1, arg), x.env);
    case Some(pred) =>
      var all := a.0 + [Filter(a.1, pred)];
      RunningBelow(a.0, all, run, x);
      assert PermitsAll(all, run, |a.0|, x);
      RowWisePermits(all, run, |a.0|, x, arg);
      OrderedAgrees(a.0, all, a.1);
      FilterKeeps(a.1, pred, run(a.1, arg), x);
  }

  lemma WithIsAnswered(
    c: Clause, where: Option<Expr>, ordered: bool, kept: bool, rows: seq<Row>, mid: seq<Row>, out: seq<Row>, x: Exec)
    requires ColumnsAnswer(c, ordered, rows, mid, x) && (ColumnsOrdered(c, ordered) ==> kept)
    requires SameOrAny(kept, out, Keep(WhereList(where), mid, x.env))
    ensures WithAnswer(c, where, ordered, rows, out, x)
  {}

  lemma WithRun(
    nodes: seq<LogicalOp>, input: Option<nat>, c: Clause, where: Option<Expr>, ordered: bool, least: set<VarId>,
    most: set<VarId>, run: Run, x: Exec, arg: Row)
    requires Start(nodes, input) && (ordered ==> FedInOrder(nodes, input)) && GroupColumns(x) && ColumnsFit(c, least)
    requires Between(Fed(run, input, arg), least, most)
    requires Running(PlanClause(nodes, input, WithClause(c, where)).0, run, x)
    ensures WithAnswer(c, where, ordered, Fed(run, input, arg),
                       run(PlanClause(nodes, input, WithClause(c, where)).1, arg), x)
  {
    var (first, up) := OrUnit(nodes, input);
    var a := PushAll(first, up, ClauseOps(c));
    ColumnsGrow(nodes, input, c);
    WhereRun(a, where, run, x, arg);
    ColumnsRunOn(nodes, input, c, ordered, least, most, run, x, arg);
    if ColumnsOrdered(c, ordered) { ColumnsInOrder(nodes, input, c, ordered); }
    WithIsAnswered(c, where, ordered, Ordered(a.0, a.1), Fed(run, input, arg), run(a.1, arg), run(PushWhere(a, where).1, arg), x);
  }

  // ----- the order of the rows on top -----

  lemma ColumnsInOrder(nodes: seq<LogicalOp>, input: Option<nat>, c: Clause, ordered: bool)
    requires Start(nodes, input) && (ordered ==> FedInOrder(nodes, input)) && ColumnsOrdered(c, ordered)
    ensures var (first, up) := OrUnit(nodes, input);
      var (out, id) := PushAll(first, up, ClauseOps(c)); Topological(out) && id < |out| && Ordered(out, id)
  {
    var (first, up) := OrUnit(nodes, input);
    OrUnitGrows(nodes, input);
    if ordered { UnitOrdered(nodes, input); }
    ClauseOrdered(first, up, c, ordered);
  }

  /** What a clause says of the order of its rows holds of the node planned
      for it. */
  lemma ClauseInOrder(nodes: seq<LogicalOp>, input: Option<nat>, c: QueryClause, ordered: bool)
    requires Start(nodes, input) && (ordered ==> FedInOrder(nodes, input)) && OrderedAfter(c, ordered)
    ensures var (out, id) := PlanClause(nodes, input, c); Topological(out) && id < |out| && Ordered(out, id)
  {
    var (first, up) := OrUnit(nodes, input);
    ClauseGrowsOn(nodes, input, c);
    match c
    case UnwindClause(expr, alias) =>
      UnitOrdered(nodes, input);
      OrderedAgrees(first, first + [Unwind(up, expr, alias)], up);
    case WithClause(columns, where) =>
      ColumnsInOrder(nodes, input, columns, ordered);
      var (out, id) := PushAll(first, up, ClauseOps(columns));
      if where.Some? { OrderedAgrees(out, out + [Filter(id, where.value)], id); }
    case ReturnClause(columns) => ColumnsInOrder(nodes, input, columns, ordered);
  }

  // ----- whole queries -----

  /** However the planned arena runs, its top has an answer of the clauses to
      the rows of the input. */
  lemma {:induction false} ClausesAnswered(
    nodes: seq<LogicalOp>, input: Option<nat>, cs: seq<QueryClause>, ordered: bool, least: set<VarId>, most: set<VarId>,
    run: Run, x: Exec, arg: Row)
    requires Start(nodes, input) && (ordered ==> FedInOrder(nodes, input)) && GroupColumns(x) && ClausesFit(cs, least, most)
    requires Between(Fed(run, input, arg), least, most) && Running(PlanClauses(nodes, input, cs).0, run, x)
    ensures Answer(cs, ordered, Fed(run, input, arg), run(PlanClauses(nodes, input, cs).1, arg), x)
    decreases cs, 2
  {
    if cs == [] {
      UnitFed(nodes, input, run, x, arg);
    } else {
      var (next, id) := PlanClause(nodes, input, cs[0]);
      ClauseGrowsOn(nodes, input, cs[0]);
      ClausesGrow(next, Some(id), cs[1..]);
      RunningBelow(next, PlanClauses(nodes, input, cs).0, run, x);
      ClauseAnswered(nodes, input, cs[0], ordered, least, most, run, x, arg);
      ClauseBetween(cs[0], ordered, Fed(run, input, arg), run(id, arg), least, most, x);
      if OrderedAfter(cs[0], ordered) { ClauseInOrder(nodes, input, cs[0], ordered); }
      ClausesAnswered(next, Some(id), cs[1..], OrderedAfter(cs[0], ordered), BoundAfter(cs[0], least),
                      MostAfter(cs[0], most), run, x, arg);
    }
  }

  lemma {:induction false} ClauseAnswered(
    nodes: seq<LogicalOp>, input: Option<nat>, c: QueryClause, ordered: bool, least: set<VarId>, most: set<VarId>,
    run: Run, x: Exec, arg: Row)
    requires Start(nodes, input) && (ordered ==> FedInOrder(nodes, input)) && GroupColumns(x) && ClauseFit(c, least, most)
    requires Between(Fed(run, input, arg), least, most) && Running(PlanClause(nodes, input, c).0, run, x)
    ensures ClauseAnswer(c, ordered, Fed(run, input, arg), run(PlanClause(nodes, input, c).1, arg), x)
    decreases c, 4
  {
    match c
    case MatchClause(false, parts, where) => MatchRuns(nodes, input, parts, where, run, x, arg);
    case MatchClause(true, parts, where) =>
      OptionalRun(nodes, input, parts, where, least, most, run, x, arg);
    case UnwindClause(expr, alias) => UnwindRun(nodes, input, expr, alias, ordered, run, x, arg);
    case WithClause(columns, where) => WithRun(nodes, input, columns, where, ordered, least, most, run, x, arg);
    case ReturnClause(columns) => ColumnsRunOn(nodes, input, columns, ordered, least, most, run, x, arg);
    case CallClause(_, _, _) => CallAnswered(nodes, input, c, ordered, least, most, run, x, arg);
  }

  /** The body's rows and those of the branches. */
  ghost function CallBody(run: Run, op: LogicalOp): Row -> seq<Row>
    requires op.CallSubquery?
  {
    (row: Row) => run(op.inner, row) + BranchRows(run, op.unions, row)
  }

  lemma CallIsCalled(op: LogicalOp, c: QueryClause, run: Run, rows: seq<Row>)
    requires op.CallSubquery? && c.CallClause? && |op.unions| == |c.unions|
    requires forall k | 0 <= k < |c.unions| :: op.unions[k].all == c.unions[k].all
    ensures FlatMap(CallEach(run, op), rows) == FlatMap(CalledEach(CallBody(run, op), c.unions), rows)
  {
    forall row | row in rows ensures CallEach(run, op)(row) == CalledEach(CallBody(run, op), c.unions)(row) {
      SameFlags(row, run(op.inner, row), BranchRows(run, op.unions, row), op.unions, c.unions);
    }
    FlatMapSame(CallEach(run, op), CalledEach(CallBody(run, op), c.unions), rows);
  }

  lemma CallIsAnswered(c: QueryClause, ordered: bool, f: Row -> seq<Row>, rows: seq<Row>, out: seq<Row>, x: Exec)
    requires c.CallClause? && Perm(out, FlatMap(CalledEach(f, c.unions), rows))
    requires forall row | row in rows :: BodyAnswer(c, row, f(row), x)
    ensures ClauseAnswer(c, ordered, rows, out, x)
  {}

  lemma CallIsMade(op: LogicalOp, c: QueryClause, ordered: bool, run: Run, rows: seq<Row>, out: seq<Row>, x: Exec)
    requires op.CallSubquery? && c.CallClause? && |op.unions| == |c.unions|
    requires forall k | 0 <= k < |c.unions| :: op.unions[k].all == c.unions[k].all
    requires Perm(out, FlatMap(CallEach(run, op), rows))
    requires forall row | row in rows :: BodyAnswer(c, row, CallBody(run, op)(row), x)
    ensures ClauseAnswer(c, ordered, rows, out, x)
  {
    CallIsCalled(op, c, run, rows);
    CallIsAnswered(c, ordered, CallBody(run, op), rows, out, x);
  }

  lemma BodyIsAnswered(c: QueryClause, row: Row, first: seq<Row>, others: seq<Row>, x: Exec)
    requires c.CallClause? && Answer(c.body, true, [row], first, x)
    requires BranchesAnswer(c.unions, c.returnVars, row, others, x)
    ensures BodyAnswer(c, row, first + others, x)
  {}

  lemma CallPermits(all: seq<LogicalOp>, run: Run, x: Exec, arg: Row)
    requires Running(all, run, x) && all != [] && all[|all| - 1].CallSubquery?
    ensures var op := all[|all| - 1]; Perm(run(|all| - 1, arg), FlatMap(CallEach(run, op), run(op.input, arg)))
  {
    assert PermitsAll(all, run, |all| - 1, x) && Permits(all, run, |all| - 1, x, arg);
  }

  /** Its sub-plans run too. */
  lemma CallRunning(nodes: seq<LogicalOp>, input: Option<nat>, c: QueryClause, run: Run, x: Exec, arg: Row)
    requires c.CallClause? && Start(nodes, input) && Running(PlanClause(nodes, input, c).0, run, x)
    ensures var (first, up) := OrUnit(nodes, input);
      var (second, inner) := PlanClauses(first, None, c.body);
      var (third, us) := PlanBranches(second, c.unions, c.returnVars);
      && Start(first, None) && ForestOf(second) && Running(second, run, x) && Running(third, run, x)
      && run(up, arg) == Fed(run, input, arg)
      && |us| == |c.unions| && forall k | 0 <= k < |c.unions| :: us[k].all == c.unions[k].all
  {
    var (first, up) := OrUnit(nodes, input);
    var (second, inner) := PlanClauses(first, None, c.body);
    var (third, us) := PlanBranches(second, c.unions, c.returnVars);
    OrUnitGrows(nodes, input);
    ClausesGrow(first, None, c.body);
    BranchesGrow(second, c.unions, c.returnVars);
    BranchFlags(second, c.unions, c.returnVars);
    RunningBelow(third, PlanClause(nodes, input, c).0, run, x);
    RunningBelow(second, third, run, x);
    RunningBelow(first, second, run, x);
    UnitFed(nodes, input, run, x, arg);
  }

  lemma {:induction false} CallAnswered(
    nodes: seq<LogicalOp>, input: Option<nat>, c: QueryClause, ordered: bool, least: set<VarId>, most: set<VarId>,
    run: Run, x: Exec, arg: Row)
    requires c.CallClause? && Start(nodes, input) && GroupColumns(x) && ClauseFit(c, least, most)
    requires Between(Fed(run, input, arg), least, most) && Running(PlanClause(nodes, input, c).0, run, x)
    ensures ClauseAnswer(c, ordered, Fed(run, input, arg), run(PlanClause(nodes, input, c).1, arg), x)
    decreases c, 3
  {
    var (first, up) := OrUnit(nodes, input);
    var (second, inner) := PlanClauses(first, None, c.body);
    var (third, us) := PlanBranches(second, c.unions, c.returnVars);
    var op := CallSubquery(up, inner, us, c.returnVars);
    CallRunning(nodes, input, c, run, x, arg);
    BodiesAnswered(first, c, up, least, most, run, x, run(up, arg));
    CallPermits(third + [op], run, x, arg);
    CallIsMade(op, c, ordered, run, run(up, arg), run(|third|, arg), x);
  }

  lemma {:induction false} BodiesAnswered(
    first: seq<LogicalOp>, c: QueryClause, up: nat, least: set<VarId>, most: set<VarId>, run: Run, x: Exec, rows: seq<Row>)
    requires c.CallClause? && Start(first, None) && GroupColumns(x) && ClauseFit(c, least, most)
    requires Between(rows, least, most)
    requires var second := PlanClauses(first, None, c.body).0;
      ForestOf(second) && Running(second, run, x) && Running(PlanBranches(second, c.unions, c.returnVars).0, run, x)
    ensures var (second, inner) := PlanClauses(first, None, c.body);
      var op := CallSubquery(up, inner, PlanBranches(second, c.unions, c.returnVars).1, c.returnVars);
      forall row | row in rows :: BodyAnswer(c, row, CallBody(run, op)(row), x)
    decreases c, 2
  {
    forall row | row in rows
      ensures var (second, inner) := PlanClauses(first, None, c.body);
        BodyAnswer(c, row, run(inner, row) + BranchRows(run, PlanBranches(second, c.unions, c.returnVars).1, row), x)
    {
      BodyAnswered(first, c, least, most, run, x, row);
    }
  }

  /** The body for one outer row, and the branches. */
  lemma {:induction false} BodyAnswered(
    first: seq<LogicalOp>, c: QueryClause, least: set<VarId>, most: set<VarId>, run: Run, x: Exec, row: Row)
    requires c.CallClause? && Start(first, None) && GroupColumns(x) && ClauseFit(c, least, most)
    requires least <= row.Keys <= most
    requires var second := PlanClauses(first, None, c.body).0;
      ForestOf(second) && Running(second, run, x) && Running(PlanBranches(second, c.unions, c.returnVars).0, run, x)
    ensures var (second, inner) := PlanClauses(first, None, c.body);
      BodyAnswer(c, row, run(inner, row) + BranchRows(run, PlanBranches(second, c.unions, c.returnVars).1, row), x)
    decreases c, 1
  {
    var (second, inner) := PlanClauses(first, None, c.body);
    ClausesAnswered(first, None, c.body, true, least, most, run, x, row);
    BranchesAnswered(second, c.unions, c.returnVars, least, most, run, x, row);
    BodyIsAnswered(c, row, run(inner, row), BranchRows(run, PlanBranches(second, c.unions, c.returnVars).1, row), x);
  }

  lemma BranchRun(next: seq<LogicalOp>, id: nat, items: seq<Item>, run: Run, x: Exec, row: Row)
    requires id < |next| && Running(next + [Projection(id, false, items, false)], run, x)
    ensures Perm(run(|next|, row), MapRows(Narrow(items, x.env), run(id, row)))
  {
    var all := next + [Projection(id, false, items, false)];
    assert PermitsAll(all, run, |next|, x);
    RowWisePermits(all, run, |next|, x, row);
    ProjectionMaps(id, false, items, false, Narrow(items, x.env), run(id, row), x);
  }

  /** The first branch runs, and so do the others after it. */
  lemma BranchRunning(nodes: seq<LogicalOp>, bs: seq<CallBranch>, heads: seq<VarId>, run: Run, x: Exec)
    requires ForestOf(nodes) && bs != [] && Running(PlanBranches(nodes, bs, heads).0, run, x)
    ensures var (next, id) := PlanClauses(nodes, None, bs[0].body);
      var all := next + [Projection(id, false, BranchColumns(bs[0], heads), false)];
      id < |next| && Running(next, run, x) && Running(all, run, x) && ForestOf(all)
      && Running(PlanBranches(all, bs[1..], heads).0, run, x)
  {
    var (next, id) := PlanClauses(nodes, None, bs[0].body);
    var op := Projection(id, false, BranchColumns(bs[0], heads), false);
    ClausesGrow(nodes, None, bs[0].body);
    Grow(next, Some(id), op);
    BranchesGrow(next + [op], bs[1..], heads);
    FirstBranchRows(nodes, bs, heads, run, map[]);
    RunningBelow(next + [op], PlanBranches(nodes, bs, heads).0, run, x);
    RunningBelow(next, next + [op], run, x);
  }

  lemma {:induction false} BranchesAnswered(
    nodes: seq<LogicalOp>, bs: seq<CallBranch>, heads: seq<VarId>, least: set<VarId>, most: set<VarId>,
    run: Run, x: Exec, row: Row)
    requires ForestOf(nodes) && GroupColumns(x) && UnionsFit(bs, least, most)
    requires least <= row.Keys <= most && Running(PlanBranches(nodes, bs, heads).0, run, x)
    ensures BranchesAnswer(bs, heads, row, BranchRows(run, PlanBranches(nodes, bs, heads).1, row), x)
    decreases bs, 2
  {
    if bs != [] {
      var (next, id) := PlanClauses(nodes, None, bs[0].body);
      var items := BranchColumns(bs[0], heads);
      var all := next + [Projection(id, false, items, false)];
      BranchRunning(nodes, bs, heads, run, x);
      ClausesAnswered(nodes, None, bs[0].body, true, least, most, run, x, row);
      BranchRun(next, id, items, run, x, row);
      BranchesAnswered(all, bs[1..], heads, least, most, run, x, row);
      FirstBranchRows(nodes, bs, heads, run, row);
var others := BranchRows(run, PlanBranches(all, bs[1..], heads).1, row);
      FirstJoined(bs[0], heads, run(id, row), run(|next|, row), others, x);
      JoinedAnswer(bs, heads, row, run(id, row), others, run(|next|, row) + others, x);
    }
  }

  lemma JoinedAnswer(
    bs: seq<CallBranch>, heads: seq<VarId>, row: Row, mid: seq<Row>, rest: seq<Row>, out: seq<Row>, x: Exec)
    requires bs != [] && Answer(bs[0].body, true, [row], mid, x)
    requires Joined(bs[0], heads, mid, rest, out, x) && BranchesAnswer(bs[1..], heads, row, rest, x)
    ensures BranchesAnswer(bs, heads, row, out, x)
  {}

  lemma FirstJoined(b: CallBranch, heads: seq<VarId>, mid: seq<Row>, first: seq<Row>, rest: seq<Row>, x: Exec)
    requires Perm(first, MapRows(Narrow(BranchColumns(b, heads), x.env), mid))
    ensures Joined(b, heads, mid, rest, first + rest, x)
  {
    PermBefore(first, MapRows(Narrow(BranchColumns(b, heads), x.env), mid), rest);
  }

  lemma PermBefore<T>(a: seq<T>, b: seq<T>, rest: seq<T>)
    requires Perm(a, b)
    ensures Perm(a + rest, b + rest)
  {}

  lemma FirstBranchRows(nodes: seq<LogicalOp>, bs: seq<CallBranch>, heads: seq<VarId>, run: Run, row: Row)
    requires bs != []
    ensures var (next, id) := PlanClauses(nodes, None, bs[0].body);
      var (out, rest) := PlanBranches(next + [Projection(id, false, BranchColumns(bs[0], heads), false)], bs[1..], heads);
      PlanBranches(nodes, bs, heads).0 == out
      && BranchRows(run, PlanBranches(nodes, bs, heads).1, row) == run(|next|, row) + BranchRows(run, rest, row)
  {
    var (next, id) := PlanClauses(nodes, None, bs[0].body);
    var rest := PlanBranches(next + [Projection(id, false, BranchColumns(bs[0], heads), false)], bs[1..], heads).1;
    var us := [UnionBranch(bs[0].all, |next|)] + rest;
    assert us[1..] == rest;
  }

  lemma RunsEverywhere(nodes: seq<LogicalOp>, run: Run, x: Exec)
    requires Topological(nodes) && IsRun(nodes, Below(|nodes|), run, x)
    ensures Running(nodes, run, x)
  {}

  /** A whole query: its plan is one the optimizer may start from, and however
      that runs, the root has an answer of the query to a single empty row. */
  lemma QueryAnswered(cs: seq<QueryClause>, run: Run, x: Exec)
    requires GroupColumns(x) && ClausesFit(cs, {}, {})
    requires var (nodes, root) := PlanClauses([], None, cs);
      Topological(nodes) ==> IsRun(nodes, Below(|nodes|), run, x)
    ensures var (nodes, root) := PlanClauses([], None, cs);
      PlanOk(root, nodes, Below(|nodes|)) && Answer(cs, true, [map[]], run(root, map[]), x)
  {
    var (nodes, root) := PlanClauses([], None, cs);
    ClausesGrow([], None, cs);
    FinishedPlan(nodes, root);
    RunsEverywhere(nodes, run, x);
    ClausesAnswered([], None, cs, true, {}, {}, run, x, map[]);
  }

  // ====================
  // Which end a chain is walked from never shows in the rows of a query: its answers are
  // those of its patterns read as written.

  // ----- the query as written -----

  /** The clause with every chain walked from its head. */
  function AsWritten(c: QueryClause): (w: QueryClause)
    ensures w.ReturnClause? == c.ReturnClause?
    ensures c.ReturnClause? ==> w == c
    decreases c, 0
  {
    match c
    case MatchClause(optional, parts, where) => MatchClause(optional, PartsAsWritten(parts), where)
    case CallClause(body, unions, heads) => CallClause(AllAsWritten(body), BranchesAsWritten(unions), heads)
    case _ => c
  }

  function AllAsWritten(cs: seq<QueryClause>): (ws: seq<QueryClause>)
    ensures |ws| == |cs|
    ensures cs != [] ==> ws[|ws| - 1].ReturnClause? == cs[|cs| - 1].ReturnClause?
    ensures cs != [] && cs[|cs| - 1].ReturnClause? ==> ws[|ws| - 1] == cs[|cs| - 1]
    decreases cs, 0
  {
    if cs == [] then []
    else
      var rest := AllAsWritten(cs[1..]);
      var first := AsWritten(cs[0]);
      assert ([first] + rest)[1..] == rest;
      [first] + rest
  }

  function BranchesAsWritten(bs: seq<CallBranch>): (ws: seq<CallBranch>)
    ensures |ws| == |bs| && forall i | 0 <= i < |bs| :: ws[i].all == bs[i].all
    decreases bs, 0
  {
    if bs == [] then []
    else
      var rest := BranchesAsWritten(bs[1..]);
      var first := CallBranch(bs[0].all, AllAsWritten(bs[0].body));
      assert ([first] + rest)[1..] == rest;
      [first] + rest
  }

  // ----- well-formed patterns -----

  /** Every chain walked from its tail is well formed where the clauses before
      it have bound what they bind. */
  ghost predicate FromEitherEnd(c: QueryClause, bound: set<VarId>)
    decreases c, 0
  {
    if c.MatchClause? then TailsWellFormed(c.parts, bound)
    else c.CallClause? ==> AllFromEitherEnd(c.body, bound) && BranchesFromEitherEnd(c.unions, bound)
  }

  ghost predicate AllFromEitherEnd(cs: seq<QueryClause>, bound: set<VarId>)
    decreases cs, 0
  {
    cs == [] || (FromEitherEnd(cs[0], bound) && AllFromEitherEnd(cs[1..], BoundAfter(cs[0], bound)))
  }

  ghost predicate BranchesFromEitherEnd(bs: seq<CallBranch>, bound: set<VarId>)
    decreases bs, 0
  {
    bs == [] || (AllFromEitherEnd(bs[0].body, bound) && BranchesFromEitherEnd(bs[1..], bound))
  }

  // ----- the same rows from either end -----

  lemma MatchesAsWritten(
    parts: seq<Part>, where: Option<Expr>, bound: set<VarId>, rows: seq<Row>, x: Exec)
    requires ExecValid(x) && TailsWellFormed(parts, bound) && RowsBind(rows, bound)
    ensures Perm(Matches(parts, where, rows, x), Matches(PartsAsWritten(parts), where, rows, x))
  {
    PatternPerm(parts, PartsAsWritten(parts), bound, rows, rows, x);
    KeepPerm(WhereList(where), MatchPattern(parts, rows, x), MatchPattern(PartsAsWritten(parts), rows, x), x.env);
  }

  lemma OrNullPerm(row: Row, a: seq<Row>, b: seq<Row>, vars: seq<VarId>)
    requires Perm(a, b)
    ensures Perm(OrNull(row, a, vars), OrNull(row, b, vars))
  {
    PermLength(a, b);
  }

  lemma {:induction false} WrittenBinders(parts: seq<Part>)
    ensures Binders(PartsAsWritten(parts)) == Binders(parts)
  {
    if parts == [] { return; }
    assert PartsAsWritten(parts)[1..] == PartsAsWritten(parts[1..]);
    WrittenBinders(parts[1..]);
  }

  lemma OptionalAsWritten(
    parts: seq<Part>, where: Option<Expr>, bound: set<VarId>, rows: seq<Row>, x: Exec)
    requires ExecValid(x) && TailsWellFormed(parts, bound) && RowsBind(rows, bound)
    ensures Perm(RunClause(MatchClause(true, parts, where), rows, x),
                 RunClause(MatchClause(true, PartsAsWritten(parts), where), rows, x))
  {
    var vars := Binders(parts);
    var f := (row: Row) => OrNull(row, Matches(parts, where, [row], x), vars);
    var g := (row: Row) => OrNull(row, Matches(PartsAsWritten(parts), where, [row], x), vars);
    WrittenBinders(parts);
    forall row | row in rows ensures Perm(f(row), g(row)) {
      MatchesAsWritten(parts, where, bound, [row], x);
      OrNullPerm(row, Matches(parts, where, [row], x),
                 Matches(PartsAsWritten(parts), where, [row], x), vars);
    }
    FlatMapPermEach(f, g, rows);
  }

  /** Whatever ends the planner chose, the answers of a query are those of its
      patterns as written. */
  lemma {:induction false} AnswersAsWritten(
    cs: seq<QueryClause>, ordered: bool, rows: seq<Row>, out: seq<Row>, least: set<VarId>, most: set<VarId>, x: Exec)
    requires AllFromEitherEnd(cs, least) && ExecValid(x) && Between(rows, least, most)
    ensures Answer(cs, ordered, rows, out, x) <==> Answer(AllAsWritten(cs), ordered, rows, out, x)
    decreases cs, 3
  {
    if cs == [] { return; }
    var first, rest, after := AsWritten(cs[0]), AllAsWritten(cs[1..]), OrderedAfter(cs[0], ordered);
    assert AllAsWritten(cs) == [first] + rest && ([first] + rest)[1..] == rest;
    forall mid
      ensures ClauseAnswer(cs[0], ordered, rows, mid, x) <==> ClauseAnswer(first, ordered, rows, mid, x)
      ensures ClauseAnswer(cs[0], ordered, rows, mid, x) ==>
        (Answer(cs[1..], after, mid, out, x) <==> Answer(rest, after, mid, out, x))
    {
      ClauseAsWritten(cs[0], ordered, rows, mid, least, most, x);
      if ClauseAnswer(cs[0], ordered, rows, mid, x) {
        ClauseBetween(cs[0], ordered, rows, mid, least, most, x);
        AnswersAsWritten(cs[1..], after, mid, out, BoundAfter(cs[0], least), MostAfter(cs[0], most), x);
      }
    }
    SameClause(cs, AllAsWritten(cs), ordered, rows, out, x);
  }

  /** Clauses of which the first has the same answers, and so have the others
      to each of them. */
  lemma SameClause(
    cs: seq<QueryClause>, ws: seq<QueryClause>, ordered: bool, rows: seq<Row>, out: seq<Row>, x: Exec)
    requires cs != [] && ws != [] && OrderedAfter(ws[0], ordered) == OrderedAfter(cs[0], ordered)
    requires forall mid :: ClauseAnswer(cs[0], ordered, rows, mid, x) <==> ClauseAnswer(ws[0], ordered, rows, mid, x)
    requires forall mid | ClauseAnswer(cs[0], ordered, rows, mid, x) ::
      Answer(cs[1..], OrderedAfter(cs[0], ordered), mid, out, x)
      <==> Answer(ws[1..], OrderedAfter(cs[0], ordered), mid, out, x)
    ensures Answer(cs, ordered, rows, out, x) <==> Answer(ws, ordered, rows, out, x)
  {}

  lemma {:induction false} ClauseAsWritten(
    c: QueryClause, ordered: bool, rows: seq<Row>, out: seq<Row>, least: set<VarId>, most: set<VarId>, x: Exec)
    requires FromEitherEnd(c, least) && ExecValid(x) && Between(rows, least, most)
    ensures ClauseAnswer(c, ordered, rows, out, x) <==> ClauseAnswer(AsWritten(c), ordered, rows, out, x)
    decreases c, 3
  {
    match c
    case MatchClause(false, parts, where) => MatchesAsWritten(parts, where, least, rows, x);
    case MatchClause(true, parts, where) => OptionalAsWritten(parts, where, least, rows, x);
    case CallClause(_, _, _) => CallAsWritten(c, ordered, rows, out, least, most, x);
    case _ =>
  }

  lemma CalledAsWritten(row: Row, all: seq<Row>, bs: seq<CallBranch>)
    ensures Called(row, all, bs) == Called(row, all, BranchesAsWritten(bs))
  {
    var ws := BranchesAsWritten(bs);
    assert (exists k | 0 <= k < |bs| :: !bs[k].all) <==> (exists k | 0 <= k < |ws| :: !ws[k].all);
  }

  lemma {:induction false} CallAsWritten(
    c: QueryClause, ordered: bool, rows: seq<Row>, out: seq<Row>, least: set<VarId>, most: set<VarId>, x: Exec)
    requires c.CallClause? && FromEitherEnd(c, least) && ExecValid(x) && Between(rows, least, most)
    ensures ClauseAnswer(c, ordered, rows, out, x) <==> ClauseAnswer(AsWritten(c), ordered, rows, out, x)
    decreases c, 2
  {
    var w := AsWritten(c);
    forall row, all | row in rows ensures BodyAnswer(c, row, all, x) <==> BodyAnswer(w, row, all, x) {
      BodyAsWritten(c, row, all, least, most, x);
    }
    forall f: Row -> seq<Row>
      ensures FlatMap(CalledEach(f, c.unions), rows) == FlatMap(CalledEach(f, w.unions), rows)
    {
      forall row ensures CalledEach(f, c.unions)(row) == CalledEach(f, w.unions)(row) {
        CalledAsWritten(row, f(row), c.unions);
      }
      FlatMapSame(CalledEach(f, c.unions), CalledEach(f, w.unions), rows);
    }
  }

  lemma {:induction false} BodyAsWritten(
    c: QueryClause, row: Row, out: seq<Row>, least: set<VarId>, most: set<VarId>, x: Exec)
    requires c.CallClause? && FromEitherEnd(c, least) && ExecValid(x) && least <= row.Keys <= most
    ensures BodyAnswer(c, row, out, x) <==> BodyAnswer(AsWritten(c), row, out, x)
    decreases c, 1
  {
    forall first ensures Answer(c.body, true, [row], first, x) <==> Answer(AllAsWritten(c.body), true, [row], first, x) {
      AnswersAsWritten(c.body, true, [row], first, least, most, x);
    }
    forall others
      ensures BranchesAnswer(c.unions, c.returnVars, row, others, x)
         <==> BranchesAnswer(BranchesAsWritten(c.unions), c.returnVars, row, others, x)
    {
      UnionsAsWritten(c.unions, c.returnVars, row, others, least, most, x);
    }
  }

  lemma {:induction false} UnionsAsWritten(
    bs: seq<CallBranch>, heads: seq<VarId>, row: Row, out: seq<Row>, least: set<VarId>, most: set<VarId>, x: Exec)
    requires BranchesFromEitherEnd(bs, least) && ExecValid(x) && least <= row.Keys <= most
    ensures BranchesAnswer(bs, heads, row, out, x) <==> BranchesAnswer(BranchesAsWritten(bs), heads, row, out, x)
    decreases bs, 3
  {
    if bs == [] { return; }
    var first, ws := CallBranch(bs[0].all, AllAsWritten(bs[0].body)), BranchesAsWritten(bs[1..]);
    assert BranchesAsWritten(bs) == [first] + ws && ([first] + ws)[1..] == ws;
    forall mid ensures Answer(bs[0].body, true, [row], mid, x) <==> Answer(first.body, true, [row], mid, x) {
      AnswersAsWritten(bs[0].body, true, [row], mid, least, most, x);
    }
    forall rest ensures BranchesAnswer(bs[1..], heads, row, rest, x) <==> BranchesAnswer(ws, heads, row, rest, x) {
      UnionsAsWritten(bs[1..], heads, row, rest, least, most, x);
    }
    SameFirst(bs, BranchesAsWritten(bs), heads, row, out, x);
  }

  /** Branches with the same answers, first and rest, under the same columns. */
  lemma SameFirst(bs: seq<CallBranch>, ws: seq<CallBranch>, heads: seq<VarId>, row: Row, out: seq<Row>, x: Exec)
    requires bs != [] && ws != []
    requires BranchColumns(bs[0], heads) == BranchColumns(ws[0], heads)
    requires forall mid :: Answer(bs[0].body, true, [row], mid, x) <==> Answer(ws[0].body, true, [row], mid, x)
    requires forall rest :: BranchesAnswer(bs[1..], heads, row, rest, x) <==> BranchesAnswer(ws[1..], heads, row, rest, x)
    ensures BranchesAnswer(bs, heads, row, out, x) <==> BranchesAnswer(ws, heads, row, out, x)
  {
    assert forall mid, rest :: Joined(bs[0], heads, mid, rest, out, x) <==> Joined(ws[0], heads, mid, rest, out, x);
  }

  /** Where nothing depends on the order of rows, the query has the rows of
      the query as written, each as often. */
  lemma RunsAsWritten(cs: seq<QueryClause>, x: Exec)
    requires AllFromEitherEnd(cs, {}) && AllOrderless(AllAsWritten(cs), x)
    requires ExecValid(x) && TotalPreorder(x.le)
    ensures Perm(RunClauses(cs, [map[]], x), RunClauses(AllAsWritten(cs), [map[]], x))
  {
    RunIsAnswer(cs, true, [map[]], x);
    AnswersAsWritten(cs, true, [map[]], RunClauses(cs, [map[]], x), {}, {}, x);
    OneAnswer(AllAsWritten(cs), true, [map[]], [map[]], RunClauses(cs, [map[]], x), x);
  }

  lemma {:induction false} WrittenLast(cs: seq<QueryClause>, c: QueryClause)
    ensures AllAsWritten(cs + [c]) == AllAsWritten(cs) + [AsWritten(c)]
    decreases |cs|
  {
    var all := cs + [c];
    if cs == [] {
      assert all[1..] == [];
    } else {
      assert all[1..] == cs[1..] + [c];
      WrittenLast(cs[1..], c);
    }
  }
}
