/** AND-trees as conjunct lists, OR-trees as disjunct lists. */
module Conjuncts {
  import opened Values
  import opened Expressions

  predicate IsAnd(e: Expr) { e.Binary? && e.op.And? }
  predicate IsOr(e: Expr) { e.Binary? && e.op.Or? }

  /** The conjuncts of an AND-tree, left to right. */
  function ConjunctsOf(e: Expr): (cs: seq<Expr>)
    ensures cs != []
  {
    if IsAnd(e) then ConjunctsOf(e.lhs) + ConjunctsOf(e.rhs) else [e]
  }

  /** The disjuncts of an OR-tree, left to right. */
  function DisjunctsOf(e: Expr): (ds: seq<Expr>)
    ensures ds != []
  {
    if IsOr(e) then DisjunctsOf(e.lhs) + DisjunctsOf(e.rhs) else [e]
  }

  /** `None` for no predicate, else the predicates ANDed in order. */
  function AndAll(es: seq<Expr>): Option<Expr> {
    if es == [] then None
    else if |es| == 1 then Some(es[0])
    else Some(Binary(AndAll(es[..|es| - 1]).value, And, es[|es| - 1]))
  }

  /** Every one of `es` is true (not false, not null) on the row. */
  predicate AllTrue(es: seq<Expr>, row: Row, env: Env) {
    forall e | e in es :: Eval(e, row, env).Truthy()
  }

  predicate AnyTrue(es: seq<Expr>, row: Row, env: Env) {
    exists e | e in es :: Eval(e, row, env).Truthy()
  }

  // ----- the flattening loops -----

  function Nodes(e: Expr): nat {
    if e.Binary? then 1 + Nodes(e.lhs) + Nodes(e.rhs) else 1
  }

  function StackNodes(stack: seq<Expr>): nat {
    if stack == [] then 0 else Nodes(stack[|stack| - 1]) + StackNodes(stack[..|stack| - 1])
  }

  function Flatten(e: Expr, conjuncts: bool): seq<Expr> {
    if conjuncts then ConjunctsOf(e) else DisjunctsOf(e)
  }

  /** What a stack still owes, its top first. */
  ghost function Owed(stack: seq<Expr>, conjuncts: bool): seq<Expr> {
    if stack == [] then []
    else Flatten(stack[|stack| - 1], conjuncts) + Owed(stack[..|stack| - 1], conjuncts)
  }

  lemma Pushed(stack: seq<Expr>, e: Expr, conjuncts: bool)
    ensures StackNodes(stack + [e]) == Nodes(e) + StackNodes(stack)
    ensures Owed(stack + [e], conjuncts) == Flatten(e, conjuncts) + Owed(stack, conjuncts)
  {
    assert (stack + [e])[..|stack|] == stack;
  }

  /** A tree on the stack may give way to its two sides, the left on top. */
  lemma SplitTop(rest: seq<Expr>, e: Expr, conjuncts: bool)
    requires if conjuncts then IsAnd(e) else IsOr(e)
    ensures Owed(rest + [e.rhs] + [e.lhs], conjuncts) == Owed(rest + [e], conjuncts)
    ensures StackNodes(rest + [e.rhs] + [e.lhs]) < StackNodes(rest + [e])
  {
    Pushed(rest, e, conjuncts);
    Pushed(rest, e.rhs, conjuncts);
    Pushed(rest + [e.rhs], e.lhs, conjuncts);
    var l, r, o := Flatten(e.lhs, conjuncts), Flatten(e.rhs, conjuncts), Owed(rest, conjuncts);
    assert l + (r + o) == (l + r) + o;
  }

  /** Any other expression leaves the stack for the list. */
  lemma EmitTop(out: seq<Expr>, rest: seq<Expr>, e: Expr, conjuncts: bool)
    requires !(if conjuncts then IsAnd(e) else IsOr(e))
    ensures out + [e] + Owed(rest, conjuncts) == out + Owed(rest + [e], conjuncts)
    ensures StackNodes(rest) < StackNodes(rest + [e])
  {
    Pushed(rest, e, conjuncts);
    assert out + ([e] + Owed(rest, conjuncts)) == out + [e] + Owed(rest, conjuncts);
  }

  /** Flattens an AND-tree with an explicit stack. */
  method SplitConjuncts(e: Expr) returns (out: seq<Expr>)
    ensures out == ConjunctsOf(e)
  {
    out := [];
    var stack := [e];
    Pushed([], e, true);
    while stack != []
      invariant out + Owed(stack, true) == ConjunctsOf(e)
      decreases StackNodes(stack)
    {
      var top, rest := stack[|stack| - 1], stack[..|stack| - 1];
      assert stack == rest + [top];
      if IsAnd(top) {
        SplitTop(rest, top, true);
        stack := rest + [top.rhs] + [top.lhs];
      } else {
        EmitTop(out, rest, top, true);
        out := out + [top];
        stack := rest;
      }
    }
  }

  /** Flattens an OR-tree with an explicit stack. */
  method SplitDisjuncts(e: Expr) returns (out: seq<Expr>)
    ensures out == DisjunctsOf(e)
  {
    out := [];
    var stack := [e];
    Pushed([], e, false);
    while stack != []
      invariant out + Owed(stack, false) == DisjunctsOf(e)
      decreases StackNodes(stack)
    {
      var top, rest := stack[|stack| - 1], stack[..|stack| - 1];
      assert stack == rest + [top];
      if IsOr(top) {
        SplitTop(rest, top, false);
        stack := rest + [top.rhs] + [top.lhs];
      } else {
        EmitTop(out, rest, top, false);
        out := out + [top];
        stack := rest;
      }
    }
  }

  // ----- meaning -----

  /** An AND-tree is true exactly when all its conjuncts are, although its
      value may be null or false when one is not. */
  lemma {:induction false} ConjunctsDecide(e: Expr, row: Row, env: Env)
    ensures Eval(e, row, env).Truthy() <==> AllTrue(ConjunctsOf(e), row, env)
  {
    if IsAnd(e) {
      ConjunctsDecide(e.lhs, row, env);
      ConjunctsDecide(e.rhs, row, env);
      AndTruthy(Eval(e.lhs, row, env), Eval(e.rhs, row, env));
    }
  }

  lemma {:induction false} DisjunctsDecide(e: Expr, row: Row, env: Env)
    ensures Eval(e, row, env).Truthy() <==> AnyTrue(DisjunctsOf(e), row, env)
  {
    if IsOr(e) {
      DisjunctsDecide(e.lhs, row, env);
      DisjunctsDecide(e.rhs, row, env);
      OrTruthy(Eval(e.lhs, row, env), Eval(e.rhs, row, env));
      var l, r := DisjunctsOf(e.lhs), DisjunctsOf(e.rhs);
      assert forall d :: d in l + r <==> d in l || d in r;
    } else {
      assert e in DisjunctsOf(e);
    }
  }

  lemma {:induction false} AndAllDecides(es: seq<Expr>, row: Row, env: Env)
    ensures AndAll(es).None? <==> es == []
    ensures es != [] ==> (Eval(AndAll(es).value, row, env).Truthy() <==> AllTrue(es, row, env))
  {
    if |es| > 1 {
      var init, last := es[..|es| - 1], es[|es| - 1];
      AndAllDecides(init, row, env);
      AndTruthy(Eval(AndAll(init).value, row, env), Eval(last, row, env));
      assert es == init + [last];
    }
  }

  // ----- the variables of a conjunct the planner may move -----

  function Union(a: Option<set<VarId>>, b: Option<set<VarId>>): Option<set<VarId>> {
    if a.Some? && b.Some? then Some(a.value + b.value) else None
  }

  /** Every variable `e` reads, or `None` when it holds a subquery or an
      aggregate, which keeps the conjunct where it was written. */
  function ConjunctVars(e: Expr): Option<set<VarId>>
    decreases e, 0
  {
    match e
    case Variable(v) => Some({v})
    case Literal(_) => Some({})
    case Parameter(_) => Some({})
    case Property(base, _) => ConjunctVars(base)
    case Binary(lhs, _, rhs) => Union(ConjunctVars(lhs), ConjunctVars(rhs))
    case Unary(_, arg) => ConjunctVars(arg)
    case Call(_, aggregate, _, args) => if aggregate then None else ConjunctVarsAll(args)
    case ListOf(items) => ConjunctVarsAll(items)
    case MapOf(entries) => ConjunctVarsEntries(entries)
    case ListPredicate(_, _, list, pred) => Union(ConjunctVars(list), ConjunctVars(pred))
    case Index(base, index) => Union(ConjunctVars(base), ConjunctVars(index))
    case Case(cond, a, b) => Union(ConjunctVars(cond), Union(ConjunctVars(a), ConjunctVars(b)))
    case Subquery(_, _) => None
  }

  function ConjunctVarsAll(es: seq<Expr>): Option<set<VarId>>
    decreases es, 0
  {
    if es == [] then Some({}) else Union(ConjunctVars(es[0]), ConjunctVarsAll(es[1..]))
  }

  function ConjunctVarsEntries(es: seq<Entry>): Option<set<VarId>>
    decreases es, 0
  {
    if es == [] then Some({})
    else Union(ConjunctVars(es[0].value), ConjunctVarsEntries(es[1..]))
  }

  lemma {:induction false} ConjunctVarsCover(e: Expr)
    ensures ConjunctVars(e).Some? ==> Free(e) <= ConjunctVars(e).value
    decreases e, 0
  {
    match e
    case Variable(_) =>
    case Literal(_) =>
    case Parameter(_) =>
    case Property(base, _) => ConjunctVarsCover(base);
    case Binary(lhs, _, rhs) => ConjunctVarsCover(lhs); ConjunctVarsCover(rhs);
    case Unary(_, arg) => ConjunctVarsCover(arg);
    case Call(_, _, _, args) => ConjunctVarsCoverAll(args);
    case ListOf(items) => ConjunctVarsCoverAll(items);
    case MapOf(entries) => ConjunctVarsCoverEntries(entries);
    case ListPredicate(_, _, list, pred) => ConjunctVarsCover(list); ConjunctVarsCover(pred);
    case Index(base, index) => ConjunctVarsCover(base); ConjunctVarsCover(index);
    case Case(cond, a, b) =>
      ConjunctVarsCover(cond); ConjunctVarsCover(a); ConjunctVarsCover(b);
    case Subquery(_, _) =>
  }

  lemma {:induction false} ConjunctVarsCoverAll(es: seq<Expr>)
    ensures ConjunctVarsAll(es).Some? ==> FreeAll(es) <= ConjunctVarsAll(es).value
    decreases es, 0
  {
    if es != [] {
      ConjunctVarsCover(es[0]);
      ConjunctVarsCoverAll(es[1..]);
    }
  }

  lemma {:induction false} ConjunctVarsCoverEntries(es: seq<Entry>)
    ensures ConjunctVarsEntries(es).Some? ==> FreeEntries(es) <= ConjunctVarsEntries(es).value
    decreases es, 0
  {
    if es != [] {
      ConjunctVarsCover(es[0].value);
      ConjunctVarsCoverEntries(es[1..]);
    }
  }
}
