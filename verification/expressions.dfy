/** Resolved expressions, their value on a row, and the variables they read. */
module Expressions {
  import opened Values

  datatype NodeRecord = NodeRecord(labels: set<string>, props: map<string, Value>)
  datatype RelRecord = RelRecord(src: nat, dst: nat, typ: string, props: map<string, Value>)

  /** Node and relationship ids are slot numbers; a freed slot is `None`. */
  datatype Graph = Graph(nodes: seq<Option<NodeRecord>>, rels: seq<Option<RelRecord>>)
  {
    predicate HasNode(id: nat) { id < |nodes| && nodes[id].Some? }
    predicate HasRel(id: nat) { id < |rels| && rels[id].Some? }

    ghost predicate Valid() {
      forall r | 0 <= r < |rels| && rels[r].Some? ::
        HasNode(rels[r].value.src) && HasNode(rels[r].value.dst)
    }
  }

  /** What evaluation reads besides the row. `call` gives the value of a
      builtin (or arithmetic) call, `fails` whether it raises an error,
      `subquery` the value of an EXISTS or a pattern comprehension. */
  datatype Env = Env(
    graph: Graph,
    params: map<string, Value>,
    call: (string, seq<Value>) -> Value,
    fails: (string, seq<Value>) -> bool,
    subquery: (nat, Row) -> Value)

  datatype BinaryOp =
    | And | Or | Xor
    | Eq | Ne | Lt | Gt | Le | Ge
    | In | StartsWithOp | EndsWithOp | ContainsOp
    | IsNull | IsNotNull
    | Arithmetic(name: string)

  datatype UnaryOp = Not | Pos | Neg

  datatype PredicateKind = Any | All | NoneOf | Single

  datatype Expr =
    | Variable(v: VarId)
    | Literal(value: Value)
    | Parameter(name: string)
    | Property(base: Expr, key: string)
    | Binary(lhs: Expr, op: BinaryOp, rhs: Expr)
    | Unary(uop: UnaryOp, arg: Expr)
    | Call(fn: string, aggregate: bool, distinct: bool, args: seq<Expr>)
    | ListOf(items: seq<Expr>)
    | MapOf(entries: seq<Entry>)
    | ListPredicate(kind: PredicateKind, element: VarId, list: Expr, pred: Expr)
    | Index(base: Expr, index: Expr)
    | Case(cond: Expr, thenExpr: Expr, elseExpr: Expr)
    | Subquery(id: nat, uses: set<VarId>)

  datatype Entry = Entry(key: string, value: Expr)

  // Builtins the compiler knows by name.
  const HAS_LABEL := "node.has_label"
  const PREFIX_END := "string.prefix_end"
  const WITHIN_BBOX := "geo.within_bbox"
  const DISTANCE := "geo.distance"

  // ----- evaluation -----

  function PropertyOf(base: Value, key: string, env: Env): Value {
    if base.NodeRef? then
      if env.graph.HasNode(base.node) then LookupKey(env.graph.nodes[base.node].value.props, key) else Null
    else if base.RelRef? then
      if env.graph.HasRel(base.rel) then LookupKey(env.graph.rels[base.rel].value.props, key) else Null
    else if base.Map? then LookupKey(base.entries, key)
    else Null
  }

  function LookupKey(props: map<string, Value>, key: string): Value {
    if key in props then props[key] else Null
  }

  /** Whether values so ordered are ordered as `wanted`, or as anything else. */
  function Ordered3(order: Option<Ordering>, wanted: Ordering, negated: bool): Value {
    if order.None? then Null else Bool((order.value == wanted) != negated)
  }

  function BinaryValue(op: BinaryOp, l: Value, r: Value, env: Env): Value {
    match op
    case And => And3(l, r)
    case Or => Or3(l, r)
    case Xor => Xor3(l, r)
    case Eq => Equal3(l, r)
    case Ne => Not3(Equal3(l, r))
    case Lt => Ordered3(Compare(l, r), Less, false)
    case Gt => Ordered3(Compare(l, r), Greater, false)
    case Le => Ordered3(Compare(l, r), Greater, true)
    case Ge => Ordered3(Compare(l, r), Less, true)
    case In => In3(l, r)
    case StartsWithOp => Text3(TestStartsWith, l, r)
    case EndsWithOp => Text3(TestEndsWith, l, r)
    case ContainsOp => Text3(TestContains, l, r)
    case IsNull => Bool(l.Null?)
    case IsNotNull => Bool(!l.Null?)
    case Arithmetic(name) => env.call(name, [l, r])
  }

  function UnaryValue(op: UnaryOp, v: Value): Value {
    match op
    case Not => Not3(v)
    case Pos => v
    case Neg => if v.Int? then Int(-v.number) else Null
  }

  function IndexValue(base: Value, index: Value, env: Env): Value {
    if base.List? && index.Int? then
      var at := if index.number < 0 then |base.items| + index.number else index.number;
      if 0 <= at < |base.items| then base.items[at] else Null
    else if index.Text? then PropertyOf(base, index.text, env)
    else Null
  }

  function Eval(e: Expr, row: Row, env: Env): Value
    decreases e, 0, row, env
  {
    match e
    case Variable(v) => Lookup(row, v)
    case Literal(value) => value
    case Parameter(name) => LookupKey(env.params, name)
    case Property(base, key) => PropertyOf(Eval(base, row, env), key, env)
    case Binary(lhs, op, rhs) => BinaryValue(op, Eval(lhs, row, env), Eval(rhs, row, env), env)
    case Unary(op, arg) => UnaryValue(op, Eval(arg, row, env))
    case Call(fn, _, _, args) => env.call(fn, EvalAll(args, row, env))
    case ListOf(items) => List(EvalAll(items, row, env))
    case MapOf(entries) => Map(EvalEntries(entries, row, env))
    case ListPredicate(kind, x, list, pred) =>
      var over := Eval(list, row, env);
      if over.List? then Verdict(kind, Hits(pred, x, over.items, row, env), |over.items|)
      else if over.Null? then Null
      else Bool(false)
    case Index(base, index) => IndexValue(Eval(base, row, env), Eval(index, row, env), env)
    case Case(cond, a, b) =>
      if Eval(cond, row, env).Truthy() then Eval(a, row, env) else Eval(b, row, env)
    case Subquery(id, uses) => env.subquery(id, Restrict(row, uses))
  }

  function EvalAll(es: seq<Expr>, row: Row, env: Env): (vs: seq<Value>)
    ensures |vs| == |es|
    decreases es, 0, row, env
  {
    if es == [] then [] else [Eval(es[0], row, env)] + EvalAll(es[1..], row, env)
  }

  function EvalEntries(es: seq<Entry>, row: Row, env: Env): map<string, Value>
    decreases es, 0, row, env
  {
    if es == [] then map[]
    else map[es[0].key := Eval(es[0].value, row, env)] + EvalEntries(es[1..], row, env)
  }

  /** How many of `items`, bound to `x` in turn, satisfy `pred`. */
  function Hits(pred: Expr, x: VarId, items: seq<Value>, row: Row, env: Env): (n: nat)
    ensures n <= |items|
    decreases pred, 1, items, x, row, env
  {
    if items == [] then 0
    else
      var hit := if Eval(pred, row[x := items[0]], env).Truthy() then 1 else 0;
      hit + Hits(pred, x, items[1..], row, env)
  }

  function Verdict(kind: PredicateKind, hits: nat, total: nat): Value {
    match kind
    case Any => Bool(hits > 0)
    case All => Bool(hits == total)
    case NoneOf => Bool(hits == 0)
    case Single => Bool(hits == 1)
  }

  function Restrict(row: Row, vars: set<VarId>): Row {
    map v | v in row && v in vars :: row[v]
  }

  // ----- variables -----

  /** Every variable the expression names, a list predicate's own too. */
  function Vars(e: Expr): set<VarId>
    decreases e, 0
  {
    match e
    case Variable(v) => {v}
    case Literal(_) => {}
    case Parameter(_) => {}
    case Property(base, _) => Vars(base)
    case Binary(lhs, _, rhs) => Vars(lhs) + Vars(rhs)
    case Unary(_, arg) => Vars(arg)
    case Call(_, _, _, args) => VarsAll(args)
    case ListOf(items) => VarsAll(items)
    case MapOf(entries) => VarsEntries(entries)
    case ListPredicate(_, _, list, pred) => Vars(list) + Vars(pred)
    case Index(base, index) => Vars(base) + Vars(index)
    case Case(cond, a, b) => Vars(cond) + Vars(a) + Vars(b)
    case Subquery(_, uses) => uses
  }

  function VarsAll(es: seq<Expr>): set<VarId>
    decreases es, 0
  {
    if es == [] then {} else Vars(es[0]) + VarsAll(es[1..])
  }

  function VarsEntries(es: seq<Entry>): set<VarId>
    decreases es, 0
  {
    if es == [] then {} else Vars(es[0].value) + VarsEntries(es[1..])
  }

  /** The variables the expression reads from its row. */
  function Free(e: Expr): set<VarId>
    decreases e, 0
  {
    match e
    case Variable(v) => {v}
    case Literal(_) => {}
    case Parameter(_) => {}
    case Property(base, _) => Free(base)
    case Binary(lhs, _, rhs) => Free(lhs) + Free(rhs)
    case Unary(_, arg) => Free(arg)
    case Call(_, _, _, args) => FreeAll(args)
    case ListOf(items) => FreeAll(items)
    case MapOf(entries) => FreeEntries(entries)
    case ListPredicate(_, x, list, pred) => Free(list) + (Free(pred) - {x})
    case Index(base, index) => Free(base) + Free(index)
    case Case(cond, a, b) => Free(cond) + Free(a) + Free(b)
    case Subquery(_, uses) => uses
  }

  function FreeAll(es: seq<Expr>): set<VarId>
    decreases es, 0
  {
    if es == [] then {} else Free(es[0]) + FreeAll(es[1..])
  }

  function FreeEntries(es: seq<Entry>): set<VarId>
    decreases es, 0
  {
    if es == [] then {} else Free(es[0].value) + FreeEntries(es[1..])
  }

  lemma {:induction false} FreeWithinVars(e: Expr)
    ensures Free(e) <= Vars(e)
    decreases e, 0
  {
    match e
    case Variable(_) =>
    case Literal(_) =>
    case Parameter(_) =>
    case Property(base, _) => FreeWithinVars(base);
    case Binary(lhs, _, rhs) => FreeWithinVars(lhs); FreeWithinVars(rhs);
    case Unary(_, arg) => FreeWithinVars(arg);
    case Call(_, _, _, args) => FreeAllWithinVars(args);
    case ListOf(items) => FreeAllWithinVars(items);
    case MapOf(entries) => FreeEntriesWithinVars(entries);
    case ListPredicate(_, _, list, pred) => FreeWithinVars(list); FreeWithinVars(pred);
    case Index(base, index) => FreeWithinVars(base); FreeWithinVars(index);
    case Case(cond, a, b) => FreeWithinVars(cond); FreeWithinVars(a); FreeWithinVars(b);
    case Subquery(_, _) =>
  }

  lemma {:induction false} FreeAllWithinVars(es: seq<Expr>)
    ensures FreeAll(es) <= VarsAll(es)
    decreases es, 0
  {
    if es != [] {
      FreeWithinVars(es[0]);
      FreeAllWithinVars(es[1..]);
    }
  }

  lemma {:induction false} FreeEntriesWithinVars(es: seq<Entry>)
    ensures FreeEntries(es) <= VarsEntries(es)
    decreases es, 0
  {
    if es != [] {
      FreeWithinVars(es[0].value);
      FreeEntriesWithinVars(es[1..]);
    }
  }

  // ----- coincidence: a value depends only on the variables read -----

  lemma {:induction false} Coincidence(e: Expr, a: Row, b: Row, env: Env)
    requires SameOn(a, b, Free(e))
    ensures Eval(e, a, env) == Eval(e, b, env)
    decreases e, 0
  {
    match e
    case Variable(_) =>
    case Literal(_) =>
    case Parameter(_) =>
    case Property(base, _) => Coincidence(base, a, b, env);
    case Binary(lhs, _, rhs) => Coincidence(lhs, a, b, env); Coincidence(rhs, a, b, env);
    case Unary(_, arg) => Coincidence(arg, a, b, env);
    case Call(_, _, _, args) => CoincidenceAll(args, a, b, env);
    case ListOf(items) => CoincidenceAll(items, a, b, env);
    case MapOf(entries) => CoincidenceEntries(entries, a, b, env);
    case ListPredicate(_, x, list, pred) =>
      Coincidence(list, a, b, env);
      var v := Eval(list, a, env);
      if v.List? { CoincidenceHits(pred, x, v.items, a, b, env); }
    case Index(base, index) => Coincidence(base, a, b, env); Coincidence(index, a, b, env);
    case Case(cond, t, f) =>
      Coincidence(cond, a, b, env); Coincidence(t, a, b, env); Coincidence(f, a, b, env);
    case Subquery(_, uses) => assert Restrict(a, uses) == Restrict(b, uses);
  }

  lemma {:induction false} CoincidenceAll(es: seq<Expr>, a: Row, b: Row, env: Env)
    requires SameOn(a, b, FreeAll(es))
    ensures EvalAll(es, a, env) == EvalAll(es, b, env)
    decreases es, 0
  {
    if es != [] {
      Coincidence(es[0], a, b, env);
      CoincidenceAll(es[1..], a, b, env);
    }
  }

  lemma {:induction false} CoincidenceEntries(es: seq<Entry>, a: Row, b: Row, env: Env)
    requires SameOn(a, b, FreeEntries(es))
    ensures EvalEntries(es, a, env) == EvalEntries(es, b, env)
    decreases es, 0
  {
    if es != [] {
      Coincidence(es[0].value, a, b, env);
      CoincidenceEntries(es[1..], a, b, env);
    }
  }

  lemma SameOnBound(a: Row, b: Row, x: VarId, value: Value, vars: set<VarId>)
    requires SameOn(a, b, vars - {x})
    ensures SameOn(a[x := value], b[x := value], vars)
  {}

  lemma {:induction false} CoincidenceHits(
    pred: Expr, x: VarId, items: seq<Value>, a: Row, b: Row, env: Env)
    requires SameOn(a, b, Free(pred) - {x})
    ensures Hits(pred, x, items, a, env) == Hits(pred, x, items, b, env)
    decreases pred, 1, |items|
  {
    if items != [] {
      SameOnBound(a, b, x, items[0], Free(pred));
      Coincidence(pred, a[x := items[0]], b[x := items[0]], env);
      CoincidenceHits(pred, x, items[1..], a, b, env);
    }
  }

  /** Binding a variable the expression does not name leaves its value. */
  lemma UnreadBinding(e: Expr, row: Row, v: VarId, value: Value, env: Env)
    requires v !in Vars(e)
    ensures Eval(e, row[v := value], env) == Eval(e, row, env)
  {
    FreeWithinVars(e);
    Coincidence(e, row[v := value], row, env);
  }
}
