/** Folding `$p IS NULL` when the plan is built for known parameters, and
    when a plan built so may be used again. */
module ParamFold {
  import opened Values
  import opened Expressions
  import opened Sorting
  import opened Logical
  import opened Arena

  /** Whether a parameter is null, for those the caller knows. */
  type Nullness = string -> Option<bool>

  /** What a plan assumed of the parameters it tested. */
  type Assumed = map<string, Option<bool>>

  predicate IsNullOp(op: BinaryOp) { op.IsNull? || op.IsNotNull? }

  predicate IsParamTest(e: Expr) { e.Binary? && IsNullOp(e.op) && e.lhs.Parameter? }

  predicate IsConnective(e: Expr) { e.Binary? && (e.op.And? || e.op.Or?) }

  predicate IsNot(e: Expr) { e.Unary? && e.uop.Not? }

  function BoolLiteral(e: Expr): Option<bool> {
    match e case Literal(Bool(b)) => Some(b) case _ => None
  }

  function FoldConnective(l: Expr, op: BinaryOp, r: Expr): Expr {
    var decides := op.Or?;
    if BoolLiteral(l) == Some(decides) || BoolLiteral(r) == Some(decides) then Literal(Bool(decides))
    else if BoolLiteral(l).Some? then r
    else if BoolLiteral(r).Some? then l
    else Binary(l, op, r)
  }

  function FoldTest(e: Expr, known: Option<bool>): Expr
    requires IsParamTest(e)
  {
    match known
    case None => e
    case Some(isNull) => Literal(Bool(if e.op.IsNull? then isNull else !isNull))
  }

  function FoldNot(inner: Expr): Expr {
    match BoolLiteral(inner) case Some(b) => Literal(Bool(!b)) case None => Unary(Not, inner)
  }

  /** The null tests decided, and the AND, OR and NOT over them simplified. */
  function Folded(e: Expr, nullness: Nullness): Expr {
    if IsParamTest(e) then FoldTest(e, nullness(e.lhs.name))
    else if IsConnective(e) then FoldConnective(Folded(e.lhs, nullness), e.op, Folded(e.rhs, nullness))
    else if IsNot(e) then FoldNot(Folded(e.arg, nullness))
    else e
  }

  /** Knowing which parameters are null may decide the predicate. */
  predicate CanDecide(e: Expr) {
    IsParamTest(e) || BoolLiteral(e).Some?
    || (IsConnective(e) && (CanDecide(e.lhs) || CanDecide(e.rhs))) || (IsNot(e) && CanDecide(e.arg))
  }

  /** The parameters tested. */
  function Tested(e: Expr): set<string> {
    if IsParamTest(e) then {e.lhs.name}
    else if IsConnective(e) then Tested(e.lhs) + Tested(e.rhs)
    else if IsNot(e) then Tested(e.arg)
    else {}
  }

  predicate MentionsNullTest(e: Expr) {
    if e.Binary? then
      if IsNullOp(e.op) then e.lhs.Parameter?
      else if e.op.And? || e.op.Or? then MentionsNullTest(e.lhs) || MentionsNullTest(e.rhs)
      else false
    else IsNot(e) && MentionsNullTest(e.arg)
  }

  function Recorded(names: set<string>, nullness: Nullness): Assumed {
    map name | name in names :: nullness(name)
  }

  lemma RecordStep(m: Assumed, a: set<string>, b: set<string>, nullness: Nullness)
    ensures m + Recorded(a, nullness) + Recorded(b, nullness) == m + Recorded(a + b, nullness)
  {}

  /** The folder as it runs, writing down what it assumes. */
  class NullTestFolder {
    var assumed: Assumed

    constructor ()
      ensures assumed == map[]
    {
      assumed := map[];
    }

    method Fold(e: Expr, nullness: Nullness) returns (r: Expr)
      modifies this
      ensures r == Folded(e, nullness)
      ensures assumed == old(assumed) + Recorded(Tested(e), nullness)
      decreases e
    {
      if IsParamTest(e) {
        var known := nullness(e.lhs.name);
        assumed := assumed[e.lhs.name := known];
        r := FoldTest(e, known);
      } else if IsConnective(e) {
        var l := Fold(e.lhs, nullness);
        var rhs := Fold(e.rhs, nullness);
        r := FoldConnective(l, e.op, rhs);
      } else if IsNot(e) {
        var inner := Fold(e.arg, nullness);
        r := FoldNot(inner);
      } else {
        r := e;
      }
    }

    /** Folds every filter that mentions a test. */
    method FoldPlan(nodes: seq<LogicalOp>, nullness: Nullness) returns (out: seq<LogicalOp>)
      modifies this
      ensures out == FoldFrom(nodes, 0, nullness)
      ensures assumed == old(assumed) + Recorded(TestedFrom(nodes, 0), nullness)
    {
      out := nodes;
      for i := 0 to |nodes|
        invariant |out| == |nodes| && out[i..] == nodes[i..]
        invariant FoldFrom(out, i, nullness) == FoldFrom(nodes, 0, nullness)
        invariant assumed + Recorded(TestedFrom(nodes, i), nullness)
               == old(assumed) + Recorded(TestedFrom(nodes, 0), nullness)
      {
        assert out[i] == nodes[i..][0];
        ghost var before, recorded := out, assumed;
        if out[i].Filter? && MentionsNullTest(out[i].pred) {
          var pred := Fold(out[i].pred, nullness);
          out := out[i := Filter(out[i].input, pred)];
        }
        assert out == FoldAt(before, i, nullness);
        RecordStep(recorded, TestedAt(nodes[i]), TestedFrom(nodes, i + 1), nullness);
        assert recorded + map[] == recorded;
        assert out[i + 1..] == nodes[i..][1..];
      }
    }
  }

  function FoldAt(nodes: seq<LogicalOp>, i: nat, nullness: Nullness): (out: seq<LogicalOp>)
    ensures |out| == |nodes|
  {
    if i < |nodes| && nodes[i].Filter? && MentionsNullTest(nodes[i].pred)
    then nodes[i := Filter(nodes[i].input, Folded(nodes[i].pred, nullness))] else nodes
  }

  function FoldFrom(nodes: seq<LogicalOp>, i: nat, nullness: Nullness): (out: seq<LogicalOp>)
    ensures |out| == |nodes|
    decreases |nodes| - i
  {
    if i >= |nodes| then nodes else FoldFrom(FoldAt(nodes, i, nullness), i + 1, nullness)
  }

  function TestedAt(op: LogicalOp): set<string> {
    if op.Filter? && MentionsNullTest(op.pred) then Tested(op.pred) else {}
  }

  function TestedFrom(nodes: seq<LogicalOp>, i: nat): set<string>
    decreases |nodes| - i
  {
    if i >= |nodes| then {} else TestedAt(nodes[i]) + TestedFrom(nodes, i + 1)
  }

  // ----- the value of a folded predicate -----

  /** `nullness` is right about the parameters of this execution. */
  ghost predicate Right(nullness: Nullness, env: Env) {
    forall name | nullness(name).Some? :: nullness(name).value == LookupKey(env.params, name).Null?
  }

  lemma BoolLiteralValue(e: Expr, row: Row, env: Env)
    requires BoolLiteral(e).Some?
    ensures Eval(e, row, env) == Bool(BoolLiteral(e).value)
  {}

  /** `false AND v` and `true OR v` are decided; `true AND v` and `false OR v`
      have the truth of `v`. */
  lemma ConstantSides(v: Value, b: bool)
    ensures And3(Bool(b), v).Truth() == if b then v.Truth() else Bool(false)
    ensures And3(v, Bool(b)).Truth() == if b then v.Truth() else Bool(false)
    ensures Or3(Bool(b), v).Truth() == if b then Bool(true) else v.Truth()
    ensures Or3(v, Bool(b)).Truth() == if b then Bool(true) else v.Truth()
  {}

  lemma LeftLiteralTruth(l: Expr, op: BinaryOp, r: Expr, row: Row, env: Env)
    requires (op.And? || op.Or?) && BoolLiteral(l).Some?
    ensures Eval(FoldConnective(l, op, r), row, env).Truth()
         == BinaryValue(op, Eval(l, row, env), Eval(r, row, env), env).Truth()
  {
    ConstantSides(Eval(r, row, env), BoolLiteral(l).value);
    BoolLiteralValue(l, row, env);
    if BoolLiteral(r).Some? { BoolLiteralValue(r, row, env); }
  }

  lemma RightLiteralTruth(l: Expr, op: BinaryOp, r: Expr, row: Row, env: Env)
    requires (op.And? || op.Or?) && BoolLiteral(l).None? && BoolLiteral(r).Some?
    ensures Eval(FoldConnective(l, op, r), row, env).Truth()
         == BinaryValue(op, Eval(l, row, env), Eval(r, row, env), env).Truth()
  {
    ConstantSides(Eval(l, row, env), BoolLiteral(r).value);
    BoolLiteralValue(r, row, env);
  }

  lemma FoldConnectiveTruth(l: Expr, op: BinaryOp, r: Expr, row: Row, env: Env)
    requires op.And? || op.Or?
    ensures Eval(FoldConnective(l, op, r), row, env).Truth()
         == BinaryValue(op, Eval(l, row, env), Eval(r, row, env), env).Truth()
  {
    if BoolLiteral(l).Some? {
      LeftLiteralTruth(l, op, r, row, env);
    } else if BoolLiteral(r).Some? {
      RightLiteralTruth(l, op, r, row, env);
    } else {
      assert FoldConnective(l, op, r) == Binary(l, op, r);
    }
  }

  /** Folding keeps the three-valued truth of every predicate on every row. */
  lemma {:induction false} FoldKeepsTruth(e: Expr, nullness: Nullness, row: Row, env: Env)
    requires Right(nullness, env)
    ensures Eval(Folded(e, nullness), row, env).Truth() == Eval(e, row, env).Truth()
  {
    if IsParamTest(e) {
    } else if IsConnective(e) {
      var l, r := Folded(e.lhs, nullness), Folded(e.rhs, nullness);
      FoldKeepsTruth(e.lhs, nullness, row, env);
      FoldKeepsTruth(e.rhs, nullness, row, env);
      FoldConnectiveTruth(l, e.op, r, row, env);
      ConnectivesReadTruth(Eval(l, row, env), Eval(r, row, env));
      ConnectivesReadTruth(Eval(e.lhs, row, env), Eval(e.rhs, row, env));
    } else if IsNot(e) {
      var inner := Folded(e.arg, nullness);
      FoldKeepsTruth(e.arg, nullness, row, env);
      ConnectivesReadTruth(Eval(inner, row, env), Null);
      ConnectivesReadTruth(Eval(e.arg, row, env), Null);
      if BoolLiteral(inner).Some? { BoolLiteralValue(inner, row, env); }
    }
  }

  predicate BoolOrNull(v: Value) { v.Bool? || v.Null? }

  /** The operands of the connectives are booleans or null on the row. */
  predicate BooleanLeaves(e: Expr, row: Row, env: Env) {
    if IsConnective(e) then BooleanLeaves(e.lhs, row, env) && BooleanLeaves(e.rhs, row, env)
    else if IsNot(e) then BooleanLeaves(e.arg, row, env)
    else BoolOrNull(Eval(e, row, env))
  }

  lemma {:induction false} BooleanFolded(e: Expr, nullness: Nullness, row: Row, env: Env)
    requires BooleanLeaves(e, row, env)
    ensures BoolOrNull(Eval(Folded(e, nullness), row, env)) && BoolOrNull(Eval(e, row, env))
  {
    if IsConnective(e) {
      BooleanFolded(e.lhs, nullness, row, env);
      BooleanFolded(e.rhs, nullness, row, env);
    } else if IsNot(e) {
      BooleanFolded(e.arg, nullness, row, env);
    }
  }

  /** A boolean-or-null predicate keeps its value, not just its truth. */
  lemma FoldKeepsValue(e: Expr, nullness: Nullness, row: Row, env: Env)
    requires Right(nullness, env) && BooleanLeaves(e, row, env)
    ensures Eval(Folded(e, nullness), row, env) == Eval(e, row, env)
  {
    FoldKeepsTruth(e, nullness, row, env);
    BooleanFolded(e, nullness, row, env);
  }

  // ----- one node replaced by one that does the same -----

  lemma ReplaceOne(nodes: seq<LogicalOp>, i: nat, op: LogicalOp, id: nat, x: Exec)
    requires Topological(nodes) && i < |nodes| && id < |nodes|
    requires Inputs(op) == Inputs(nodes[i]) && Plain(op) && Plain(nodes[i])
    requires Upstream(op) == Upstream(nodes[i])
    requires forall rows :: Apply(op, rows, x) == Apply(nodes[i], rows, x)
    ensures Topological(nodes[i := op]) && SameRows(nodes, nodes[i := op], id, x)
  {
    var out := nodes[i := op];
    forall k | 0 <= k < |out| ensures InputsBelow(out[k], k) { assert InputsBelow(nodes[k], k); }
    var live := Below(|nodes|);
    assert Region(nodes, out, i, {}, live);
    forall arg ensures Denote(nodes, i, x, arg) == Denote(out, i, x, arg) {
      if Upstream(op).Some? {
        assert Upstream(op).value in Inputs(op) && InputsBelow(op, i);
        DenoteAgrees(nodes, out, Upstream(op).value, x, arg);
      }
    }
    LiftSame(nodes, out, i, {}, live, id, x);
  }

  lemma {:induction false} SameFilter(i: nat, a: Expr, b: Expr, rows: seq<Row>, x: Exec)
    requires forall row :: Eval(a, row, x.env).Truthy() == Eval(b, row, x.env).Truthy()
    ensures StepAll(Filter(i, a), rows, x) == StepAll(Filter(i, b), rows, x)
  {
    if rows != [] { SameFilter(i, a, b, rows[1..], x); }
  }

  lemma FoldAtKeeps(nodes: seq<LogicalOp>, i: nat, nullness: Nullness, id: nat, x: Exec)
    requires Topological(nodes) && id < |nodes| && Right(nullness, x.env)
    ensures Topological(FoldAt(nodes, i, nullness)) && SameRows(nodes, FoldAt(nodes, i, nullness), id, x)
  {
    if i < |nodes| && nodes[i].Filter? && MentionsNullTest(nodes[i].pred) {
      var op := Filter(nodes[i].input, Folded(nodes[i].pred, nullness));
      forall rows ensures Apply(op, rows, x) == Apply(nodes[i], rows, x) {
        forall row ensures Eval(op.pred, row, x.env).Truthy() == Eval(nodes[i].pred, row, x.env).Truthy() {
          FoldKeepsTruth(nodes[i].pred, nullness, row, x.env);
        }
        SameFilter(nodes[i].input, op.pred, nodes[i].pred, rows, x);
      }
      ReplaceOne(nodes, i, op, id, x);
    }
  }

  /** The folded plan has the same rows at every node, for every execution
      whose parameters have the nullness it was folded for. */
  lemma {:induction false} FoldKeepsRows(nodes: seq<LogicalOp>, i: nat, nullness: Nullness, id: nat, x: Exec)
    requires Topological(nodes) && id < |nodes| && Right(nullness, x.env)
    ensures Topological(FoldFrom(nodes, i, nullness)) && SameRows(nodes, FoldFrom(nodes, i, nullness), id, x)
    decreases |nodes| - i
  {
    if i < |nodes| {
      var out := FoldAt(nodes, i, nullness);
      FoldAtKeeps(nodes, i, nullness, id, x);
      FoldKeepsRows(out, i + 1, nullness, id, x);
      SameRowsThrough(nodes, out, FoldFrom(out, i + 1, nullness), id, x);
    }
  }

  // ----- using a plan again -----

  /** The plan was built for parameters of this nullness. */
  predicate Fits(assumed: Assumed, nullness: Nullness) {
    forall name | name in assumed :: nullness(name) == assumed[name]
  }

  lemma {:induction false} SameTestsSameFold(e: Expr, a: Nullness, b: Nullness)
    requires forall name | name in Tested(e) :: a(name) == b(name)
    ensures Folded(e, a) == Folded(e, b)
  {
    if IsConnective(e) {
      SameTestsSameFold(e.lhs, a, b);
      SameTestsSameFold(e.rhs, a, b);
    } else if IsNot(e) {
      SameTestsSameFold(e.arg, a, b);
    }
  }

  lemma {:induction false} SameTestsSamePlan(nodes: seq<LogicalOp>, i: nat, a: Nullness, b: Nullness)
    requires forall name | name in TestedFrom(nodes, i) :: a(name) == b(name)
    ensures FoldFrom(nodes, i, a) == FoldFrom(nodes, i, b)
    decreases |nodes| - i
  {
    if i < |nodes| {
      if TestedAt(nodes[i]) != {} { SameTestsSameFold(nodes[i].pred, a, b); }
      if nodes[i].Filter? { SameTestsSameFold(nodes[i].pred, a, b) by { NoTests(nodes[i].pred); } }
      TestedElsewhere(nodes, FoldAt(nodes, i, a), i + 1);
      SameTestsSamePlan(FoldAt(nodes, i, a), i + 1, a, b);
    }
  }

  lemma {:induction false} NoTests(e: Expr)
    ensures MentionsNullTest(e) <==> Tested(e) != {}
  {
    if IsConnective(e) {
      NoTests(e.lhs);
      NoTests(e.rhs);
    } else if IsNot(e) {
      NoTests(e.arg);
    }
  }

  lemma {:induction false} TestedElsewhere(a: seq<LogicalOp>, b: seq<LogicalOp>, i: nat)
    requires |a| == |b| && forall k | i <= k < |a| :: a[k] == b[k]
    ensures TestedFrom(a, i) == TestedFrom(b, i)
    decreases |a| - i
  {
    if i < |a| { TestedElsewhere(a, b, i + 1); }
  }

  /** A query's plans, its own and one for each UNION branch, folded in turn
      and then optimized, with everything they assumed. */
  datatype Compiled = Compiled(plans: seq<seq<LogicalOp>>, nullParams: Assumed)

  function Compile(
    plans: seq<seq<LogicalOp>>, nullness: Nullness, optimize: seq<LogicalOp> -> seq<LogicalOp>): Compiled
  {
    if plans == [] then Compiled([], map[])
    else
      var rest := Compile(plans[1..], nullness, optimize);
      Compiled([optimize(FoldFrom(plans[0], 0, nullness))] + rest.plans,
               Recorded(TestedFrom(plans[0], 0), nullness) + rest.nullParams)
  }

  lemma {:induction false} RecordsNullness(
    plans: seq<seq<LogicalOp>>, nullness: Nullness, optimize: seq<LogicalOp> -> seq<LogicalOp>)
    ensures forall name | name in Compile(plans, nullness, optimize).nullParams ::
      Compile(plans, nullness, optimize).nullParams[name] == nullness(name)
  {
    if plans != [] { RecordsNullness(plans[1..], nullness, optimize); }
  }

  /** Where `fits` holds, compiling again would give the very same plans and
      record the same assumptions. */
  lemma {:induction false} FitsMeansSamePlan(
    plans: seq<seq<LogicalOp>>, a: Nullness, b: Nullness, optimize: seq<LogicalOp> -> seq<LogicalOp>)
    requires Fits(Compile(plans, a, optimize).nullParams, b)
    ensures Compile(plans, b, optimize) == Compile(plans, a, optimize)
  {
    if plans != [] {
      var rest := Compile(plans[1..], a, optimize).nullParams;
      var first := Recorded(TestedFrom(plans[0], 0), a);
      RecordsNullness(plans[1..], a, optimize);
      RecordsNullness(plans, a, optimize);
      forall name | name in rest ensures b(name) == rest[name] {
        assert name in first + rest;
      }
      forall name | name in TestedFrom(plans[0], 0) ensures a(name) == b(name) {
        assert name in first + rest;
      }
      FitsMeansSamePlan(plans[1..], a, b, optimize);
      SameTestsSamePlan(plans[0], 0, a, b);
      assert Recorded(TestedFrom(plans[0], 0), b) == first;
    }
  }

  /** `a` is right about the parameters the plan tests. */
  ghost predicate RightWhereTested(nodes: seq<LogicalOp>, a: Nullness, env: Env) {
    forall name | name in TestedFrom(nodes, 0) && a(name).Some? :: a(name).value == LookupKey(env.params, name).Null?
  }

  /** Which is all the folded plan depends on. */
  lemma KnownWhereTested(nodes: seq<LogicalOp>, a: Nullness, env: Env) returns (known: Nullness)
    requires RightWhereTested(nodes, a, env)
    ensures Right(known, env) && FoldFrom(nodes, 0, known) == FoldFrom(nodes, 0, a)
  {
    var tested := TestedFrom(nodes, 0);
    known := (name: string) => if name in tested then a(name) else None;
    SameTestsSamePlan(nodes, 0, a, known);
  }

  /** And the plans it would give have the rows of the query as planned. */
  lemma FittingPlanIsRight(nodes: seq<LogicalOp>, a: Nullness, id: nat, x: Exec)
    requires Topological(nodes) && id < |nodes| && RightWhereTested(nodes, a, x.env)
    ensures Topological(FoldFrom(nodes, 0, a)) && SameRows(nodes, FoldFrom(nodes, 0, a), id, x)
  {
    var known := KnownWhereTested(nodes, a, x.env);
    FoldKeepsRows(nodes, 0, known, id, x);
  }
}
