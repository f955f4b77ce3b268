/** Replacing builtin calls on constants by their values when the plan is
    built: the same values, the same errors. */
module CallFold {
  import opened Values
  import opened Expressions
  import opened Sorting
  import opened Logical
  import opened Arena
  import opened ParamFold

  /** The value of a call on constants, or `None` to leave it for each row. */
  type Fold = (string, seq<Expr>) -> Option<Value>

  /** A literal, or a list or map of them. */
  predicate IsConstant(e: Expr) {
    match e
    case Literal(_) => true
    case ListOf(items) => forall i | 0 <= i < |items| :: IsConstant(items[i])
    case MapOf(entries) => forall i | 0 <= i < |entries| :: IsConstant(entries[i].value)
    case _ => false
  }

  function FoldOne(fn: string, aggregate: bool, distinct: bool, args: seq<Expr>, fold: Fold): Expr {
    if !aggregate && !distinct && (forall i | 0 <= i < |args| :: IsConstant(args[i]))
       && fold(fn, args).Some?
    then Literal(fold(fn, args).value)
    else Call(fn, aggregate, distinct, args)
  }

  /** Innermost calls first. */
  function FoldCalls(e: Expr, fold: Fold): Expr
    decreases e, 0
  {
    match e
    case Call(fn, aggregate, distinct, args) => FoldOne(fn, aggregate, distinct, FoldAll(args, fold), fold)
    case Property(base, key) => Property(FoldCalls(base, fold), key)
    case Unary(op, arg) => Unary(op, FoldCalls(arg, fold))
    case Binary(l, op, r) => Binary(FoldCalls(l, fold), op, FoldCalls(r, fold))
    case ListOf(items) => ListOf(FoldAll(items, fold))
    case MapOf(entries) => MapOf(FoldEntries(entries, fold))
    case Case(c, a, b) => Case(FoldCalls(c, fold), FoldCalls(a, fold), FoldCalls(b, fold))
    case ListPredicate(kind, x, list, pred) =>
      ListPredicate(kind, x, FoldCalls(list, fold), FoldCalls(pred, fold))
    case Index(base, index) => Index(FoldCalls(base, fold), FoldCalls(index, fold))
    case _ => e
  }

  function FoldAll(es: seq<Expr>, fold: Fold): (fs: seq<Expr>)
    ensures |fs| == |es|
    decreases es, 0
  {
    if es == [] then [] else [FoldCalls(es[0], fold)] + FoldAll(es[1..], fold)
  }

  function FoldEntries(es: seq<Entry>, fold: Fold): (fs: seq<Entry>)
    ensures |fs| == |es|
    decreases es, 0
  {
    if es == [] then [] else [Entry(es[0].key, FoldCalls(es[0].value, fold))] + FoldEntries(es[1..], fold)
  }

  // ----- errors -----

  /** Evaluating the expression raises an error: some call it reaches does.
      AND and OR do not reach a right side the left decides, and a list
      predicate stops once it is settled. */
  predicate Fails(e: Expr, row: Row, env: Env)
    decreases e, 0
  {
    match e
    case Property(base, _) => Fails(base, row, env)
    case Binary(l, op, r) =>
      Fails(l, row, env)
      || (!Decides(op, Eval(l, row, env)) && Fails(r, row, env))
      || (op.Arithmetic? && env.fails(op.name, [Eval(l, row, env), Eval(r, row, env)]))
    case Unary(_, arg) => Fails(arg, row, env)
    case Call(fn, _, _, args) => FailsAny(args, row, env) || env.fails(fn, EvalAll(args, row, env))
    case ListOf(items) => FailsAny(items, row, env)
    case MapOf(entries) => FailsEntries(entries, row, env)
    case ListPredicate(kind, x, list, pred) =>
      Fails(list, row, env)
      || (Eval(list, row, env).List? && FailsOver(kind, pred, x, Eval(list, row, env).items, 0, row, env))
    case Index(base, index) => Fails(base, row, env) || Fails(index, row, env)
    case Case(c, a, b) =>
      Fails(c, row, env) || if Eval(c, row, env).Truthy() then Fails(a, row, env) else Fails(b, row, env)
    case _ => false
  }

  predicate Decides(op: BinaryOp, left: Value) {
    (op.And? && !left.Null? && !left.Truthy()) || (op.Or? && left.Truthy())
  }

  predicate FailsAny(es: seq<Expr>, row: Row, env: Env)
    decreases es, 0
  {
    es != [] && (Fails(es[0], row, env) || FailsAny(es[1..], row, env))
  }

  predicate FailsEntries(es: seq<Entry>, row: Row, env: Env)
    decreases es, 0
  {
    es != [] && (Fails(es[0].value, row, env) || FailsEntries(es[1..], row, env))
  }

  /** One hit settles `any` and `none`, a second `single`, one miss `all`. */
  predicate Settled(kind: PredicateKind, hit: bool, hits: nat) {
    if hit then kind.Any? || kind.NoneOf? || (kind.Single? && hits > 1) else kind.All?
  }

  predicate FailsOver(kind: PredicateKind, pred: Expr, x: VarId, items: seq<Value>, hits: nat, row: Row, env: Env)
    decreases pred, 1, |items|
  {
    items != [] &&
    (var inner := row[x := items[0]];
     var hit := Eval(pred, inner, env).Truthy();
     var hits' := if hit then hits + 1 else hits;
     Fails(pred, inner, env)
     || (!Settled(kind, hit, hits') && FailsOver(kind, pred, x, items[1..], hits', row, env)))
  }

  // ----- the callback -----

  /** A constant's value, which no row changes. */
  function ConstantValues(es: seq<Expr>, env: Env): seq<Value> { EvalAll(es, map[], env) }

  /** The callback gives only values the call would produce without error. */
  ghost predicate Honest(fold: Fold, env: Env) {
    forall fn, args | fold(fn, args).Some? && (forall i | 0 <= i < |args| :: IsConstant(args[i])) ::
      env.call(fn, ConstantValues(args, env)) == fold(fn, args).value
      && !env.fails(fn, ConstantValues(args, env))
  }

  lemma {:induction false} ConstantAnywhere(e: Expr, row: Row, env: Env)
    requires IsConstant(e)
    ensures Eval(e, row, env) == Eval(e, map[], env) && !Fails(e, row, env)
    decreases e, 0
  {
    match e
    case Literal(_) =>
    case ListOf(items) => ConstantsAnywhere(items, row, env);
    case MapOf(entries) => EntriesAnywhere(entries, row, env);
  }

  lemma {:induction false} ConstantsAnywhere(es: seq<Expr>, row: Row, env: Env)
    requires forall i | 0 <= i < |es| :: IsConstant(es[i])
    ensures EvalAll(es, row, env) == ConstantValues(es, env) && !FailsAny(es, row, env)
    decreases es, 0
  {
    if es != [] {
      ConstantAnywhere(es[0], row, env);
      assert forall i | 0 <= i < |es[1..]| :: es[1..][i] == es[i + 1];
      ConstantsAnywhere(es[1..], row, env);
    }
  }

  lemma {:induction false} EntriesAnywhere(es: seq<Entry>, row: Row, env: Env)
    requires forall i | 0 <= i < |es| :: IsConstant(es[i].value)
    ensures EvalEntries(es, row, env) == EvalEntries(es, map[], env) && !FailsEntries(es, row, env)
    decreases es, 0
  {
    if es != [] {
      ConstantAnywhere(es[0].value, row, env);
      assert forall i | 0 <= i < |es[1..]| :: es[1..][i] == es[i + 1];
      EntriesAnywhere(es[1..], row, env);
    }
  }

  // ----- evaluation is preserved -----

  ghost predicate SameOutcome(a: Expr, b: Expr, row: Row, env: Env) {
    Eval(a, row, env) == Eval(b, row, env) && Fails(a, row, env) == Fails(b, row, env)
  }

  lemma FoldOneKeeps(
    fn: string, aggregate: bool, distinct: bool, args: seq<Expr>, fold: Fold, row: Row, env: Env)
    requires Honest(fold, env)
    ensures SameOutcome(FoldOne(fn, aggregate, distinct, args, fold), Call(fn, aggregate, distinct, args), row, env)
  {
    if forall i | 0 <= i < |args| :: IsConstant(args[i]) { ConstantsAnywhere(args, row, env); }
  }

  /** Folding keeps the value and the error of every expression on every row. */
  lemma {:induction false} FoldKeepsOutcome(e: Expr, fold: Fold, row: Row, env: Env)
    requires Honest(fold, env)
    ensures SameOutcome(FoldCalls(e, fold), e, row, env)
    decreases e, 0
  {
    match e
    case Call(fn, aggregate, distinct, args) =>
      FoldAllKeeps(args, fold, row, env);
      FoldOneKeeps(fn, aggregate, distinct, FoldAll(args, fold), fold, row, env);
    case Property(base, _) => FoldKeepsOutcome(base, fold, row, env);
    case Unary(_, arg) => FoldKeepsOutcome(arg, fold, row, env);
    case Binary(l, _, r) => FoldKeepsOutcome(l, fold, row, env); FoldKeepsOutcome(r, fold, row, env);
    case ListOf(items) => FoldAllKeeps(items, fold, row, env);
    case MapOf(entries) => FoldEntriesKeep(entries, fold, row, env);
    case Case(c, a, b) =>
      FoldKeepsOutcome(c, fold, row, env);
      FoldKeepsOutcome(a, fold, row, env);
      FoldKeepsOutcome(b, fold, row, env);
    case ListPredicate(_, _, _, _) => FoldPredicateKeeps(e, fold, row, env);
    case Index(base, index) => FoldKeepsOutcome(base, fold, row, env); FoldKeepsOutcome(index, fold, row, env);
    case _ =>
  }

  lemma {:induction false} FoldPredicateKeeps(e: Expr, fold: Fold, row: Row, env: Env)
    requires Honest(fold, env) && e.ListPredicate?
    ensures SameOutcome(FoldCalls(e, fold), e, row, env)
    decreases e, 0, 0
  {
    var ListPredicate(kind, x, list, pred) := e;
    FoldKeepsOutcome(list, fold, row, env);
    if Eval(list, row, env).List? {
      FoldHitsKeep(pred, x, Eval(list, row, env).items, fold, row, env);
      FoldErrorsKeep(kind, pred, x, Eval(list, row, env).items, 0, fold, row, env);
    }
  }

  lemma {:induction false} FoldAllKeeps(es: seq<Expr>, fold: Fold, row: Row, env: Env)
    requires Honest(fold, env)
    ensures EvalAll(FoldAll(es, fold), row, env) == EvalAll(es, row, env)
    ensures FailsAny(FoldAll(es, fold), row, env) == FailsAny(es, row, env)
    decreases es, 0
  {
    if es != [] {
      FoldKeepsOutcome(es[0], fold, row, env);
      FoldAllKeeps(es[1..], fold, row, env);
      assert FoldAll(es, fold)[1..] == FoldAll(es[1..], fold);
    }
  }

  lemma {:induction false} FoldEntriesKeep(es: seq<Entry>, fold: Fold, row: Row, env: Env)
    requires Honest(fold, env)
    ensures EvalEntries(FoldEntries(es, fold), row, env) == EvalEntries(es, row, env)
    ensures FailsEntries(FoldEntries(es, fold), row, env) == FailsEntries(es, row, env)
    decreases es, 0
  {
    if es != [] {
      FoldKeepsOutcome(es[0].value, fold, row, env);
      FoldEntriesKeep(es[1..], fold, row, env);
      assert FoldEntries(es, fold)[1..] == FoldEntries(es[1..], fold);
    }
  }

  lemma {:induction false} FoldHitsKeep(
    pred: Expr, x: VarId, items: seq<Value>, fold: Fold, row: Row, env: Env)
    requires Honest(fold, env)
    ensures Hits(FoldCalls(pred, fold), x, items, row, env) == Hits(pred, x, items, row, env)
    decreases pred, 1, |items|
  {
    if items != [] {
      FoldKeepsOutcome(pred, fold, row[x := items[0]], env);
      FoldHitsKeep(pred, x, items[1..], fold, row, env);
    }
  }

  lemma {:induction false} FoldErrorsKeep(
    kind: PredicateKind, pred: Expr, x: VarId, items: seq<Value>, hits: nat, fold: Fold, row: Row, env: Env)
    requires Honest(fold, env)
    ensures FailsOver(kind, FoldCalls(pred, fold), x, items, hits, row, env)
         == FailsOver(kind, pred, x, items, hits, row, env)
    decreases pred, 1, |items|
  {
    if items != [] {
      var inner := row[x := items[0]];
      FoldKeepsOutcome(pred, fold, inner, env);
      var hits' := if Eval(pred, inner, env).Truthy() then hits + 1 else hits;
      FoldErrorsKeep(kind, pred, x, items[1..], hits', fold, row, env);
    }
  }

  // ----- one pass is enough -----

  /** Folding again changes nothing. */
  lemma {:induction false} FoldTwice(e: Expr, fold: Fold)
    ensures FoldCalls(FoldCalls(e, fold), fold) == FoldCalls(e, fold)
    decreases e, 0
  {
    match e
    case Call(fn, aggregate, distinct, args) => FoldAllTwice(args, fold);
    case Property(base, _) => FoldTwice(base, fold);
    case Unary(_, arg) => FoldTwice(arg, fold);
    case Binary(l, _, r) => FoldTwice(l, fold); FoldTwice(r, fold);
    case ListOf(items) => FoldAllTwice(items, fold);
    case MapOf(entries) => FoldEntriesTwice(entries, fold);
    case Case(c, a, b) => FoldTwice(c, fold); FoldTwice(a, fold); FoldTwice(b, fold);
    case ListPredicate(_, _, list, pred) => FoldTwice(list, fold); FoldTwice(pred, fold);
    case Index(base, index) => FoldTwice(base, fold); FoldTwice(index, fold);
    case _ =>
  }

  lemma {:induction false} FoldAllTwice(es: seq<Expr>, fold: Fold)
    ensures FoldAll(FoldAll(es, fold), fold) == FoldAll(es, fold)
    decreases es, 0
  {
    if es != [] {
      FoldTwice(es[0], fold);
      FoldAllTwice(es[1..], fold);
      assert FoldAll(es, fold)[1..] == FoldAll(es[1..], fold);
    }
  }

  lemma {:induction false} FoldEntriesTwice(es: seq<Entry>, fold: Fold)
    ensures FoldEntries(FoldEntries(es, fold), fold) == FoldEntries(es, fold)
    decreases es, 0
  {
    if es != [] {
      FoldTwice(es[0].value, fold);
      FoldEntriesTwice(es[1..], fold);
      assert FoldEntries(es, fold)[1..] == FoldEntries(es[1..], fold);
    }
  }

  // ----- the plan -----

  function FoldItems(items: seq<Item>, fold: Fold): (out: seq<Item>)
    ensures |out| == |items|
  {
    if items == [] then []
    else [Item(FoldCalls(items[0].expr, fold), items[0].output)] + FoldItems(items[1..], fold)
  }

  function FoldKeys(keys: seq<SortKey>, fold: Fold): (out: seq<SortKey>)
    ensures |out| == |keys|
  {
    if keys == [] then []
    else [keys[0].(expr := FoldCalls(keys[0].expr, fold))] + FoldKeys(keys[1..], fold)
  }

  function FoldOp(op: LogicalOp, fold: Fold): LogicalOp {
    if op.Filter? then Filter(op.input, FoldCalls(op.pred, fold))
    else if op.Projection? then Projection(op.input, op.distinct, FoldItems(op.items, fold), op.includeExisting)
    else if op.Aggregation? then
      Aggregation(op.input, FoldItems(op.groupBy, fold), FoldItems(op.aggregates, fold))
    else if op.Sort? then Sort(op.input, FoldKeys(op.keys, fold), op.topK, op.bound, op.presorted)
    else if op.Unwind? then Unwind(op.input, FoldCalls(op.expr, fold), op.alias)
    else op
  }

  function FoldOpsFrom(nodes: seq<LogicalOp>, i: nat, fold: Fold): (out: seq<LogicalOp>)
    ensures |out| == |nodes|
    decreases |nodes| - i
  {
    if i >= |nodes| then nodes else FoldOpsFrom(nodes[i := FoldOp(nodes[i], fold)], i + 1, fold)
  }

  /** Overwrites each operator of the arena in turn. */
  method FoldConstantCalls(plan: array<LogicalOp>, fold: Fold)
    modifies plan
    ensures plan[..] == FoldOpsFrom(old(plan[..]), 0, fold)
  {
    for i := 0 to plan.Length
      invariant FoldOpsFrom(plan[..], i, fold) == FoldOpsFrom(old(plan[..]), 0, fold)
    {
      ghost var before := plan[..];
      plan[i] := FoldOp(plan[i], fold);
      assert plan[..] == before[i := FoldOp(before[i], fold)];
    }
  }

  /** Grouping looks only at what the items evaluate to. */
  ghost predicate GroupsByValue(x: Exec, fold: Fold) {
    forall keys, aggregates, rows ::
      x.group(FoldItems(keys, fold), FoldItems(aggregates, fold), rows) == x.group(keys, aggregates, rows)
  }

  lemma {:induction false} ProjectOverFolded(items: seq<Item>, fold: Fold, row: Row, env: Env)
    requires Honest(fold, env)
    ensures ProjectOver(FoldItems(items, fold), row, env) == ProjectOver(items, row, env)
    decreases |items|
  {
    if items != [] {
      FoldKeepsOutcome(items[0].expr, fold, row, env);
      ProjectOverFolded(items[1..], fold, row[items[0].output := Eval(items[0].expr, row, env)], env);
      assert FoldItems(items, fold)[1..] == FoldItems(items[1..], fold);
    }
  }

  lemma {:induction false} ProjectOntoFolded(items: seq<Item>, fold: Fold, row: Row, out: Row, env: Env)
    requires Honest(fold, env)
    ensures ProjectOnto(FoldItems(items, fold), row, out, env) == ProjectOnto(items, row, out, env)
    decreases |items|
  {
    if items != [] {
      FoldKeepsOutcome(items[0].expr, fold, row, env);
      ProjectOntoFolded(items[1..], fold, row, out[items[0].output := Eval(items[0].expr, row, env)], env);
      assert FoldItems(items, fold)[1..] == FoldItems(items[1..], fold);
    }
  }

  lemma StepFolded(op: LogicalOp, fold: Fold, row: Row, x: Exec)
    requires op.Filter? || op.Projection? || op.Unwind?
    requires Honest(fold, x.env)
    ensures Step(FoldOp(op, fold), row, x) == Step(op, row, x)
  {
    match op
    case Filter(_, pred) => FoldKeepsOutcome(pred, fold, row, x.env);
    case Projection(_, _, items, _) =>
      ProjectOverFolded(items, fold, row, x.env);
      ProjectOntoFolded(items, fold, row, map[], x.env);
    case Unwind(_, expr, _) => FoldKeepsOutcome(expr, fold, row, x.env);
  }

  lemma {:induction false} StepAllFolded(op: LogicalOp, fold: Fold, rows: seq<Row>, x: Exec)
    requires op.Filter? || op.Projection? || op.Unwind?
    requires Honest(fold, x.env)
    ensures StepAll(FoldOp(op, fold), rows, x) == StepAll(op, rows, x)
  {
    if rows != [] {
      StepFolded(op, fold, rows[0], x);
      StepAllFolded(op, fold, rows[1..], x);
    }
  }

  lemma {:induction false} NotAfterFolded(keys: seq<SortKey>, fold: Fold, a: Row, b: Row, env: Env, le: Rank)
    requires Honest(fold, env)
    ensures NotAfter(FoldKeys(keys, fold), a, b, env, le) == NotAfter(keys, a, b, env, le)
  {
    if keys != [] {
      FoldKeepsOutcome(keys[0].expr, fold, a, env);
      FoldKeepsOutcome(keys[0].expr, fold, b, env);
      NotAfterFolded(keys[1..], fold, a, b, env, le);
      assert FoldKeys(keys, fold)[1..] == FoldKeys(keys[1..], fold);
    }
  }

  lemma {:induction false} InsertFolded(
    keys: seq<SortKey>, fold: Fold, row: Row, rows: seq<Row>, env: Env, le: Rank)
    requires Honest(fold, env)
    ensures Insert(FoldKeys(keys, fold), row, rows, env, le) == Insert(keys, row, rows, env, le)
  {
    if rows != [] {
      NotAfterFolded(keys, fold, row, rows[0], env, le);
      InsertFolded(keys, fold, row, rows[1..], env, le);
    }
  }

  lemma {:induction false} SortFolded(keys: seq<SortKey>, fold: Fold, rows: seq<Row>, env: Env, le: Rank)
    requires Honest(fold, env)
    ensures StableSort(FoldKeys(keys, fold), rows, env, le) == StableSort(keys, rows, env, le)
  {
    if rows != [] {
      SortFolded(keys, fold, rows[1..], env, le);
      InsertFolded(keys, fold, rows[0], StableSort(keys, rows[1..], env, le), env, le);
    }
  }

  lemma {:induction false} FoldKeysPrefix(keys: seq<SortKey>, n: nat, fold: Fold)
    requires n <= |keys|
    ensures FoldKeys(keys, fold)[..n] == FoldKeys(keys[..n], fold)
  {
    if n > 0 {
      FoldKeysPrefix(keys[1..], n - 1, fold);
      assert keys[..n][1..] == keys[1..][..n - 1];
    }
  }

  lemma {:induction false} RunFolded(
    lead: seq<SortKey>, fold: Fold, first: Row, rows: seq<Row>, env: Env, le: Rank)
    requires Honest(fold, env)
    ensures RunLength(FoldKeys(lead, fold), first, rows, env, le) == RunLength(lead, first, rows, env, le)
  {
    if rows != [] {
      NotAfterFolded(lead, fold, first, rows[0], env, le);
      NotAfterFolded(lead, fold, rows[0], first, env, le);
      RunFolded(lead, fold, first, rows[1..], env, le);
    }
  }

  lemma {:induction false} PartialFolded(
    keys: seq<SortKey>, presorted: nat, fold: Fold, rows: seq<Row>, env: Env, le: Rank)
    requires Honest(fold, env) && presorted <= |keys|
    ensures PartialSort(FoldKeys(keys, fold), presorted, rows, env, le)
         == PartialSort(keys, presorted, rows, env, le)
    decreases |rows|
  {
    if rows != [] {
      FoldKeysPrefix(keys, presorted, fold);
      RunFolded(keys[..presorted], fold, rows[0], rows[1..], env, le);
      var n := 1 + RunLength(keys[..presorted], rows[0], rows[1..], env, le);
      SortFolded(keys, fold, rows[..n], env, le);
      PartialFolded(keys, presorted, fold, rows[n..], env, le);
    }
  }

  /** Each folded operator yields what it did. */
  lemma ApplyFolded(op: LogicalOp, fold: Fold, rows: seq<Row>, x: Exec)
    requires Honest(fold, x.env) && GroupsByValue(x, fold)
    ensures Apply(FoldOp(op, fold), rows, x) == Apply(op, rows, x)
  {
    match op
    case Filter(_, _) => StepAllFolded(op, fold, rows, x);
    case Projection(_, _, _, _) => StepAllFolded(op, fold, rows, x);
    case Unwind(_, _, _) => StepAllFolded(op, fold, rows, x);
    case Sort(_, keys, _, _, presorted) =>
      SortFolded(keys, fold, rows, x.env, x.le);
      if presorted <= |keys| { PartialFolded(keys, presorted, fold, rows, x.env, x.le); }
    case _ =>
  }

  /** And so does the plan, at every node. */
  lemma {:induction false} FoldOpsKeepRows(nodes: seq<LogicalOp>, i: nat, fold: Fold, id: nat, x: Exec)
    requires Topological(nodes) && id < |nodes|
    requires Honest(fold, x.env) && GroupsByValue(x, fold)
    ensures Topological(FoldOpsFrom(nodes, i, fold)) && SameRows(nodes, FoldOpsFrom(nodes, i, fold), id, x)
    decreases |nodes| - i
  {
    if i < |nodes| {
      var op := FoldOp(nodes[i], fold);
      if Plain(nodes[i]) {
        forall rows ensures Apply(op, rows, x) == Apply(nodes[i], rows, x) {
          ApplyFolded(nodes[i], fold, rows, x);
        }
        ReplaceOne(nodes, i, op, id, x);
      } else {
        assert nodes[i := op] == nodes;
      }
      FoldOpsKeepRows(nodes[i := op], i + 1, fold, id, x);
    }
  }
}
