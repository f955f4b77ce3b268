/** The planners as they run: the pattern planner, which updates its pending
    conjuncts and available variables in place, and the planner of a query's
    clauses, appending to one arena. */
module Planners {
  import opened Values
  import opened Expressions
  import opened Conjuncts
  import opened Logical
  import opened Planning
  import opened Clauses
  import opened Queries

  class PatternPlanner {
    var nodes: seq<LogicalOp>
    var pending: seq<Pending>
    var available: set<VarId>
    ghost var placed: seq<Pending>

    ghost function Current(): State
      reads this
    {
      State(nodes, pending, available, placed)
    }

    constructor (nodes: seq<LogicalOp>)
      ensures Current() == Initial(nodes, [])
    {
      this.nodes := nodes;
      pending, available, placed := [], {}, [];
    }

    method Push(op: LogicalOp) returns (id: nat)
      modifies this
      ensures id == |old(nodes)|
      ensures Current() == old(Current()).(nodes := old(nodes) + [op])
    {
      id := |nodes|;
      nodes := nodes + [op];
    }

    method AttachReady(input: nat, checks: seq<Expr>) returns (node: nat)
      modifies this
      ensures Planned(Current(), node) == Planning.AttachReady(Planned(old(Current()), input), checks)
    {
      var ready: seq<Pending>, waiting: seq<Pending> := [], [];
      var i := 0;
      while i < |pending|
        invariant 0 <= i <= |pending|
        invariant ready + Ready(pending[i..], available) == Ready(pending, available)
        invariant waiting + Waiting(pending[i..], available) == Waiting(pending, available)
      {
        assert pending[i..][1..] == pending[i + 1..];
        if pending[i].needs <= available {
          ready := ready + [pending[i]];
        } else {
          waiting := waiting + [pending[i]];
        }
        i := i + 1;
      }
      assert ready == Ready(pending, available) && waiting == Waiting(pending, available);
      pending, placed := waiting, placed + ready;
      match AndAll(checks + Exprs(ready))
      case None => node := input;
      case Some(pred) => node := Push(Filter(input, pred));
    }

    method PlanNode(input: Option<nat>, n: NodePattern) returns (node: nat)
      modifies this
      ensures Planned(Current(), node) == Planning.PlanNode(old(Current()), input, n)
    {
      node := Push(NodeScan(input, n.v, n.labels));
      available := available + {n.v};
      node := AttachReady(node, NodeChecks(n));
    }

    method PlanNodeChain(input: Option<nat>, c: Chain) returns (node: nat)
      modifies this
      ensures Planned(Current(), node) == PlanChain(old(Current()), input, c)
    {
      node := PlanNode(input, c.head);
      var src, i := c.head.v, 0;
      while i < |c.steps|
        invariant 0 <= i <= |c.steps|
        invariant PlanSteps(Planned(Current(), node), src, c.steps[i..])
               == PlanChain(old(Current()), input, c)
      {
        var s := c.steps[i];
        ghost var before := Planned(Current(), node);
        node := Push(Expand(node, src, s.rel.v, s.node.v, s.rel.types, s.rel.direction, s.rel.props));
        available := available + StepVars(s);
        node := AttachReady(node, StepChecks(s));
        assert Planned(Current(), node) == PlanStep(before, src, s);
        assert c.steps[i..][1..] == c.steps[i + 1..];
        src, i := s.node.v, i + 1;
      }
    }

    method PlanPart(input: Option<nat>, part: Part) returns (node: nat)
      modifies this
      ensures Planned(Current(), node) == Planning.PlanPart(old(Current()), input, part)
    {
      node := PlanNodeChain(input, Walked(part));
      if part.binding.Some? {
        node := Push(PathBuild(
          node, part.binding.value, NodeVarsOf(part.chain), RelVarsOf(part.chain.steps)));
        available := available + {part.binding.value};
        node := AttachReady(node, []);
      }
    }

    method PlanPattern(input: Option<nat>, parts: seq<Part>) returns (node: nat)
      modifies this
      ensures Planned(Current(), node) == Planning.PlanPattern(old(Current()), input, parts)
    {
      if parts == [] {
        match input {
          case Some(id) => node := id;
          case None => node := Push(Argument);
        }
        return;
      }
      node := PlanPart(input, parts[0]);
      var i := 1;
      while i < |parts|
        invariant 1 <= i <= |parts|
        invariant PlanParts(Planned(Current(), node), parts[i..])
               == Planning.PlanPattern(old(Current()), input, parts)
      {
        node := PlanPart(Some(node), parts[i]);
        assert parts[i..][1..] == parts[i + 1..];
        i := i + 1;
      }
    }

    method PlanPatternWithWhere(
      input: Option<nat>, parts: seq<Part>, where: Option<Expr>)
      returns (node: nat, residual: seq<Expr>)
      requires pending == [] && available == {} && placed == []
      modifies this
      ensures MatchPlan(Planned(Current(), node), residual)
           == PlanWithWhere(old(nodes), input, parts, where)
    {
      var vars := PatternVars(parts);
      var kept: seq<(nat, Expr)> := [];
      if where.Some? {
        var cs := SplitConjuncts(where.value);
        var order := 0;
        while order < |cs|
          invariant 0 <= order <= |cs|
          invariant nodes == old(nodes) && available == {} && placed == []
          invariant pending + ToPlace(cs[order..], order, vars) == ToPlace(cs, 0, vars)
          invariant kept + ToKeep(cs[order..], order, vars) == ToKeep(cs, 0, vars)
        {
          assert cs[order..][1..] == cs[order + 1..];
          var needs := Needs(cs[order], vars);
          if needs == {} {
            kept := kept + [(order, cs[order])];
          } else {
            pending := pending + [Pending(order, cs[order], needs)];
          }
          order := order + 1;
        }
      }
      assert pending == ToPlace(ConjunctsOfWhere(where), 0, vars);
      assert kept == ToKeep(ConjunctsOfWhere(where), 0, vars);
      node := PlanPattern(input, parts);
      residual := Unnumbered(SortByOrder(kept + Numbered(pending)));
    }

    /** A MATCH without OPTIONAL, its residual conjuncts on top. */
    method PlanMatch(input: Option<nat>, parts: seq<Part>, where: Option<Expr>)
      returns (node: nat)
      requires pending == [] && available == {} && placed == []
      modifies this
      ensures Planned(Current(), node) == Planning.PlanMatch(old(nodes), input, parts, where)
    {
      var residual;
      node, residual := PlanPatternWithWhere(input, parts, where);
      match AndAll(residual)
      case None =>
      case Some(pred) => node := Push(Filter(node, pred));
    }
  }

  // ====================
  // The planner as it runs over a query's clauses, appending to one arena.

  class Planner {
    var nodes: seq<LogicalOp>

    constructor ()
      ensures nodes == []
    {
      nodes := [];
    }

    method Push(op: LogicalOp) returns (id: nat)
      modifies this
      ensures id == |old(nodes)| && nodes == old(nodes) + [op]
    {
      id := |nodes|;
      nodes := nodes + [op];
    }

    /** The input, or a unit row where the clause comes first. */
    method OrUnit(input: Option<nat>) returns (node: nat)
      modifies this
      ensures (nodes, node) == Queries.OrUnit(old(nodes), input)
    {
      match input
      case Some(id) => node := id;
      case None => node := Push(Argument);
    }

    method PlanMatch(input: Option<nat>, parts: seq<Part>, where: Option<Expr>)
      returns (node: nat)
      modifies this
      ensures var p := Planning.PlanMatch(old(nodes), input, parts, where);
        nodes == p.st.nodes && node == p.node
    {
      var patterns := new PatternPlanner(nodes);
      node := patterns.PlanMatch(input, parts, where);
      nodes := patterns.nodes;
    }

    method PlanColumns(input: nat, columns: Clause) returns (node: nat)
      modifies this
      ensures (nodes, node) == PushAll(old(nodes), input, ClauseOps(columns))
    {
      var clauses := new ClausePlanner(nodes);
      node := clauses.PlanProjectionSortLimit(input, columns);
      nodes := clauses.nodes;
    }

    method PlanClauses(input: Option<nat>, cs: seq<QueryClause>) returns (node: nat)
      modifies this
      ensures (nodes, node) == Queries.PlanClauses(old(nodes), input, cs)
      decreases cs, 1
    {
      var at := input;
      var i := 0;
      while i < |cs|
        invariant i <= |cs|
        invariant Queries.PlanClauses(nodes, at, cs[i..]) == Queries.PlanClauses(old(nodes), input, cs)
      {
        assert cs[i..][0] == cs[i] && cs[i..][1..] == cs[i + 1..];
        var id := PlanClause(at, cs[i]);
        at, i := Some(id), i + 1;
      }
      node := OrUnit(at);
    }

    method PlanClause(input: Option<nat>, c: QueryClause) returns (node: nat)
      modifies this
      ensures (nodes, node) == Queries.PlanClause(old(nodes), input, c)
      decreases c, 1
    {
      match c
      case MatchClause(optional, parts, where) =>
        if optional {
          var up := OrUnit(input);
          var inner := PlanMatch(None, parts, where);
          node := Push(OptionalMatch(up, inner, Binders(parts)));
        } else {
          node := PlanMatch(input, parts, where);
        }
      case UnwindClause(expr, alias) =>
        var up := OrUnit(input);
        node := Push(Unwind(up, expr, alias));
      case WithClause(columns, where) =>
        var up := OrUnit(input);
        node := PlanColumns(up, columns);
        if where.Some? { node := Push(Filter(node, where.value)); }
      case ReturnClause(columns) =>
        var up := OrUnit(input);
        node := PlanColumns(up, columns);
      case CallClause(body, unions, heads) =>
        var up := OrUnit(input);
        var inner := PlanClauses(None, body);
        var branches := PlanBranches(unions, heads);
        node := Push(CallSubquery(up, inner, branches, heads));
    }

    /** Each branch is a plan of its own, its columns renamed to the head's. */
    method PlanBranches(bs: seq<CallBranch>, heads: seq<VarId>) returns (branches: seq<UnionBranch>)
      modifies this
      ensures (nodes, branches) == Queries.PlanBranches(old(nodes), bs, heads)
      decreases bs, 1
    {
      branches := [];
      var i := 0;
      assert bs[0..] == bs && [] + Queries.PlanBranches(nodes, bs, heads).1 == Queries.PlanBranches(nodes, bs, heads).1;
      while i < |bs|
        invariant i <= |bs|
        invariant var (out, rest) := Queries.PlanBranches(nodes, bs[i..], heads);
          (out, branches + rest) == Queries.PlanBranches(old(nodes), bs, heads)
      {
        assert bs[i..][0] == bs[i] && bs[i..][1..] == bs[i + 1..];
        var id := PlanClauses(None, bs[i].body);
        var top := Push(Projection(id, false, BranchColumns(bs[i], heads), false));
        ghost var rest := Queries.PlanBranches(nodes, bs[i + 1..], heads).1;
        assert branches + ([UnionBranch(bs[i].all, top)] + rest) == branches + [UnionBranch(bs[i].all, top)] + rest;
        branches, i := branches + [UnionBranch(bs[i].all, top)], i + 1;
      }
      assert branches + [] == branches;
    }

    /** Plans a whole query on a fresh arena. */
    method Plan(cs: seq<QueryClause>) returns (root: nat)
      requires nodes == []
      modifies this
      ensures (nodes, root) == Queries.PlanClauses([], None, cs)
    {
      root := PlanClauses(None, cs);
    }
  }
}
