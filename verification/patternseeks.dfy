/** The WHERE conjuncts of a pattern subquery that pin a property of one of
    its nodes to a value the pattern does not bind. */
module PatternSeeks {
  import opened Values
  import opened Expressions
  import opened Conjuncts

  datatype SeekKind = Equals | InList | Prefix
  datatype PatternSeek = PatternSeek(v: VarId, key: string, kind: SeekKind, value: Expr)

  function NodeProperty(e: Expr, nodeVars: set<VarId>): Option<(VarId, string)> {
    if e.Property? && e.base.Variable? && e.base.v in nodeVars then Some((e.base.v, e.key)) else None
  }

  predicate Outer(e: Expr, patternVars: set<VarId>) { Vars(e) !! patternVars }

  function KindOf(op: BinaryOp): Option<SeekKind> {
    match op
    case Eq => Some(Equals)
    case In => Some(InList)
    case StartsWithOp => Some(Prefix)
    case _ => None
  }

  function SeekOf(e: Expr, nodeVars: set<VarId>, patternVars: set<VarId>): Option<PatternSeek> {
    if !e.Binary? || KindOf(e.op).None? then None
    else
      var kind := KindOf(e.op).value;
      var l, r := NodeProperty(e.lhs, nodeVars), NodeProperty(e.rhs, nodeVars);
      if l.Some? && Outer(e.rhs, patternVars) then Some(PatternSeek(l.value.0, l.value.1, kind, e.rhs))
      else if r.Some? && kind.Equals? && Outer(e.lhs, patternVars) then
        Some(PatternSeek(r.value.0, r.value.1, kind, e.lhs))
      else None
  }

  function SeeksOf(cs: seq<Expr>, nodeVars: set<VarId>, patternVars: set<VarId>): seq<PatternSeek> {
    if cs == [] then []
    else
      var rest := SeeksOf(cs[1..], nodeVars, patternVars);
      match SeekOf(cs[0], nodeVars, patternVars) case None => rest case Some(s) => [s] + rest
  }

  lemma {:induction false} SeeksConcat(
    a: seq<Expr>, b: seq<Expr>, nodeVars: set<VarId>, patternVars: set<VarId>)
    ensures SeeksOf(a + b, nodeVars, patternVars)
         == SeeksOf(a, nodeVars, patternVars) + SeeksOf(b, nodeVars, patternVars)
  {
    if a == [] {
      assert a + b == b;
    } else {
      assert (a + b)[1..] == a[1..] + b;
      SeeksConcat(a[1..], b, nodeVars, patternVars);
    }
  }

  /** The seeks of the WHERE's conjuncts, in its order, off an explicit stack. */
  method Collect(where: Option<Expr>, nodeVars: set<VarId>, patternVars: set<VarId>)
    returns (seeks: seq<PatternSeek>)
    ensures seeks == match where
      case None => []
      case Some(w) => SeeksOf(ConjunctsOf(w), nodeVars, patternVars)
  {
    seeks := [];
    if where.None? { return; }
    var stack := [where.value];
    Pushed([], where.value, true);
    assert ConjunctsOf(where.value) + [] == ConjunctsOf(where.value);
    while stack != []
      invariant seeks + SeeksOf(Owed(stack, true), nodeVars, patternVars)
             == SeeksOf(ConjunctsOf(where.value), nodeVars, patternVars)
      decreases StackNodes(stack)
    {
      var top, rest := stack[|stack| - 1], stack[..|stack| - 1];
      assert stack == rest + [top];
      if IsAnd(top) {
        SplitTop(rest, top, true);
        stack := rest + [top.rhs] + [top.lhs];
      } else {
        EmitTop([], rest, top, true);
        assert [] + [top] + Owed(rest, true) == [top] + Owed(rest, true);
        assert [] + Owed(stack, true) == Owed(stack, true);
        SeeksConcat([top], Owed(rest, true), nodeVars, patternVars);
        assert [top][1..] == [];
        var found := SeekOf(top, nodeVars, patternVars);
        if found.Some? { seeks := seeks + [found.value]; }
        stack := rest;
      }
    }
  }

  /** What the seek asks of the property's value. */
  predicate SeekHolds(kind: SeekKind, stored: Value, value: Value) {
    match kind
    case Equals => stored == value && !value.Null?
    case InList => value.List? && stored in value.items && !stored.Null?
    case Prefix => stored.Text? && value.Text? && StartsWith(stored.text, value.text)
  }

  lemma {:induction false} SeekFrom(
    cs: seq<Expr>, nodeVars: set<VarId>, patternVars: set<VarId>, s: PatternSeek) returns (c: Expr)
    requires s in SeeksOf(cs, nodeVars, patternVars)
    ensures c in cs && SeekOf(c, nodeVars, patternVars) == Some(s)
  {
    if SeekOf(cs[0], nodeVars, patternVars) == Some(s) { c := cs[0]; }
    else { c := SeekFrom(cs[1..], nodeVars, patternVars, s); }
  }

  function OpOf(kind: SeekKind): BinaryOp {
    match kind case Equals => Eq case InList => In case Prefix => StartsWithOp
  }

  /** The conjunct pins the seek's property: `v.key = value`, `value = v.key`,
      `v.key IN value` or `v.key STARTS WITH value`, of a node of the pattern
      and a value the pattern does not bind. */
  predicate Pins(c: Expr, s: PatternSeek, nodeVars: set<VarId>, patternVars: set<VarId>) {
    var property := Property(Variable(s.v), s.key);
    && s.v in nodeVars && Outer(s.value, patternVars)
    && (c == Binary(property, OpOf(s.kind), s.value) || (s.kind.Equals? && c == Binary(s.value, Eq, property)))
  }

  lemma {:induction false} SeekAmong(cs: seq<Expr>, nodeVars: set<VarId>, patternVars: set<VarId>, c: Expr)
    requires c in cs && SeekOf(c, nodeVars, patternVars).Some?
    ensures SeekOf(c, nodeVars, patternVars).value in SeeksOf(cs, nodeVars, patternVars)
  {
    if c != cs[0] { SeekAmong(cs[1..], nodeVars, patternVars, c); }
  }

  /** Exactly the conjuncts that pin a property are collected. */
  lemma SeeksPin(where: Expr, nodeVars: set<VarId>, patternVars: set<VarId>)
    ensures forall c, s | c in ConjunctsOf(where) && Pins(c, s, nodeVars, patternVars) ::
      exists found | found in SeeksOf(ConjunctsOf(where), nodeVars, patternVars) :: Pins(c, found, nodeVars, patternVars)
    ensures forall s | s in SeeksOf(ConjunctsOf(where), nodeVars, patternVars) ::
      exists c | c in ConjunctsOf(where) :: Pins(c, s, nodeVars, patternVars)
  {
    var cs := ConjunctsOf(where);
    forall c, s | c in cs && Pins(c, s, nodeVars, patternVars)
      ensures exists found | found in SeeksOf(cs, nodeVars, patternVars) :: Pins(c, found, nodeVars, patternVars)
    {
      var found := SeekOf(c, nodeVars, patternVars).value;
      assert Pins(c, found, nodeVars, patternVars);
      SeekAmong(cs, nodeVars, patternVars, c);
    }
    forall s | s in SeeksOf(cs, nodeVars, patternVars) ensures exists c | c in cs :: Pins(c, s, nodeVars, patternVars) {
      var c := SeekFrom(cs, nodeVars, patternVars, s);
      assert Pins(c, s, nodeVars, patternVars);
    }
  }

  /** Every seek collected is implied by the WHERE, with a value that is the
      same before the pattern binds anything. */
  lemma SeekImplied(
    where: Expr, nodeVars: set<VarId>, patternVars: set<VarId>, s: PatternSeek,
    outer: Row, row: Row, env: Env)
    requires s in SeeksOf(ConjunctsOf(where), nodeVars, patternVars)
    requires Eval(where, row, env).Truthy()
    requires forall u | u !in patternVars :: (u in outer <==> u in row) && (u in outer ==> outer[u] == row[u])
    ensures s.v in nodeVars
    ensures Eval(s.value, outer, env) == Eval(s.value, row, env)
    ensures SeekHolds(s.kind, PropertyOf(Lookup(row, s.v), s.key, env), Eval(s.value, outer, env))
  {
    var c := SeekFrom(ConjunctsOf(where), nodeVars, patternVars, s);
    ConjunctsDecide(where, row, env);
    FreeWithinVars(s.value);
    Coincidence(s.value, outer, row, env);
    assert Eval(Property(Variable(s.v), s.key), row, env) == PropertyOf(Eval(Variable(s.v), row, env), s.key, env);
  }
}
