# LoraDB query compiler and bindings: a verification model

LoraDB turns resolved Cypher clauses into an arena of logical operators and
rewrites that arena in place before it runs. This project models the compiler
and proves that planning and every rewrite keep the rows of the query, or says
exactly when they do not. It also models three smaller parts with a protocol
of their own: the stack guard under recursive walks, the Go binding's handle
and row iterator, and the binary result format with its Go and TypeScript
readers.

`dafny verify dfyconfig.toml` checks everything.

## How it is built

- **Meaning.** `values.dfy` and `expressions.dfy` give expressions their
  three-valued value on a row; `logical.dfy` gives each operator the rows it
  makes of its input's rows, by recursion on its id in the arena
  (`Logical.Denote`). Scan and index order, grouping and the order of values
  are parameters (`Logical.Exec`), so results hold for every choice of them.
  What the plan and the meaning of a query share, such as null rows, renamed
  columns and paths, is said once more without them (`Queries.UnmatchedNull`,
  `Queries.BranchesUnderHeads`, `Walks.PathsAreWalks`, `Clauses.GroupedBy`).
- **What a plan and a query allow.** ORDER BY fixes an order up to its keys;
  filters, plain projections, SKIP, LIMIT and UNWIND keep an order that is
  fixed; any other rows may come in any. SKIP and LIMIT count along the order
  there is and a grouping, which may be any function of a list of rows, is given
  them in it. `runs.dfy` says which rows a plan may so have at every node
  (`Runs.IsRun`), `answers.dfy` which a query may yield, clause by clause
  (`Answers.Answer`): an execution is one such run, its rows one such answer.
  Planning and the passes are proved to refine these, so queries with SKIP,
  LIMIT and `collect` anywhere, in subqueries too, are covered.
- **Planning.** `planning.dfy`, `clauses.dfy` and `queries.dfy` say what the
  planner pushes; the classes in `planners.dfy` and `clauses.dfy` push it step
  by step and are proved against that. `placement.dfy`, `walks.dfy`,
  `clauses.dfy` and `queries.dfy` prove what the pushed operators yield in an
  execution and that the arena stays a forest in topological order;
  `queryruns.dfy` proves what they may yield in any run, what rows bind after
  each clause, that the ends of chains do not show, and what a grouping after
  WITH ... ORDER BY is given. `plannedops.dfy` proves what the clauses say of
  the operators and that the filters are well scoped.
- **Rewriting.** A rewrite confined to nodes only its top reads is one of the
  whole plan: row for row in `arena.dfy`, run for run in `runs.dfy`. On these
  rest the passes: `filterpush.dfy`, `nodeseeks.dfy`, `relseeks.dfy`,
  `sortorder.dfy` and `orderpass.dfy`, `topk.dfy`, `paramfold.dfy`,
  `callfold.dfy`; `lostrows.dfy` has queries that two of them lose rows of.
  `optimizer.dfy` runs them over one mutable plan, and `compiled.dfy` derives
  what they ask of a plan from its clauses, carries that through the folding
  before them, and joins planning, folding and passes. What an index may be
  asked is in `rangebounds.dfy` and `accesses.dfy`.
- **Beside the compiler.** `plantree.dfy` (the tree a plan is shown as),
  `patternseeks.dfy`, `stackguard.dfy`, `handle.dfy`, `rowiterator.dfy`, and
  `wire.dfy`, `roundtrip.dfy`, `goreader.dfy`, `frames.dfy`, `tsreader.dfy`,
  `tstables.dfy` (the result format).

## Where the code does not keep the rows

Each is proved with the condition under which the code is right.

- A literal LIMIT over a SKIP that is not a literal: the sort under it keeps too
  few rows, because such a SKIP counts as zero (`TopK.TopKIff`).
- A relationship seek whose value reads a node of its own pattern, as in
  `WHERE id(r) = a.favourite`: the node is not bound when the seek runs
  (`LostRows.UnboundSeekIff`, `LostRows.FavouriteIsLost`,
  `RelSeeks.SeekKeepsIff`).
- An ordered scan whose bound, taken from a filter above a projection, reads an
  alias of that projection, as in `MATCH (n:L) WITH *, 5 AS y WHERE n.k > y OR
  n.k IS NULL RETURN n ORDER BY n.k` (`OrderPass.ServedIff`,
  `OrderPass.UnboundBoundIff`, `LostRows.AliasIsLost`).
- CONTAINS on a property that stores lists, answered from a text index
  (`Accesses.ContainsIff`).
- A chain walked from its tail, one of whose inline maps reads a variable of
  the chain that is bound before it from one end and after it from the other
  (`Walks.EarlyTailIff`, `Walks.EitherEndIff`,
  `Walks.ReadingChainDiffers`), or one of whose relationships is named like
  a node at its end (`Walks.SharedNameIff`).
- `collect` over rows no ORDER BY orders: an index or the other end of a chain
  gives them in another order, and the list changes (`Answers.SameAnswersIff`,
  `QueryRuns.CollectSeesOrder`); directly after WITH ... ORDER BY it does not
  leave the order of the keys (`Compiled.CompiledCollect`).
- TypeScript: ids a number cannot hold are read as other ids
  (`TsReaders.IdsCollide`, `TsReaders.SomeIdCollides`), and a column name holding U+001F can be given the
  row factory of other columns (`TsReaders.JoinConfuses`,
  `TsReaders.FactoryCache.RowFactory`).

A relationship seek also leaves its scan behind in the arena, still naming the
scan's source; the forest then holds of the nodes in use
(`RelSeeks.RelSeekAtForest`). Pushing a filter below a projection rests on the
analyzer's scoping: the guard alone does not make it right
(`FilterPush.SwapIff`), and for well-scoped predicates it lets through only
those that read nothing (`FilterPush.PushedReadsNothing`).

That a query avoids those of the passes can be read off its clauses
(`PlannedOps.ClausesAsked`); `Compiled.CompilesAsked` shows it is enough.

## Model

| member | source | states |
|---|---|---|
| `Expressions.Coincidence` | crates/lora-analyzer/src/resolved.rs:466-695 | an expression has the same value on any two rows that agree on the variables it reads; a list predicate's own variable is not one of them |
| `Expressions.FreeWithinVars` | crates/lora-analyzer/src/resolved.rs:466-695 | the variables reported include every variable the value depends on |
| `Expressions.UnreadBinding` | crates/lora-compiler/src/optimizer.rs:631-639 | binding a variable the expression does not name leaves its value |
| `Conjuncts.SplitConjuncts` | crates/lora-compiler/src/pattern.rs:515-533 | the explicit-stack loop ends and gives the left-to-right conjuncts of an AND-tree |
| `Conjuncts.SplitDisjuncts` | crates/lora-compiler/src/optimizer.rs:1945-1964 | likewise the disjuncts of an OR-tree |
| `Conjuncts.ConjunctsDecide` | crates/lora-compiler/src/optimizer.rs:1966-1983 | an AND-tree is true exactly when every conjunct is, though it may be null or false otherwise |
| `Conjuncts.DisjunctsDecide` | crates/lora-compiler/src/optimizer.rs:1945-1964 | an OR-tree is true exactly when some disjunct is |
| `Conjuncts.AndAllDecides` | crates/lora-compiler/src/pattern.rs:535-543 | the conjuncts ANDed again are true exactly when all of them are; no predicate only for no conjuncts |
| `Conjuncts.ConjunctVarsCover` | crates/lora-compiler/src/pattern.rs:545-626 | a conjunct the planner may move reads no variable but those reported for it |
| `Placement.AttachSound` | crates/lora-compiler/src/pattern.rs:247-262 | a filter of inline checks and ready conjuncts keeps exactly the rows that pass, and no conjunct that is ready is left waiting |
| `Placement.BindSound` | crates/lora-compiler/src/pattern.rs:199-245 | an operator that binds pattern variables leaves the truth of every conjunct placed below it unchanged |
| `Placement.PlacedAtOnce` | crates/lora-compiler/src/pattern.rs:199-262 | a step places exactly the conjuncts whose last pattern variable its operator binds: none could be placed before, none that can is left |
| `Placement.AllPlaced` | crates/lora-compiler/src/pattern.rs:47-86 | after the whole pattern nothing is pending: the placed conjuncts are the pending ones, each once |
| `Placement.EachConjunctOnce` | crates/lora-compiler/src/pattern.rs:47-86 | placed and residual conjuncts together are the conjuncts of the WHERE, each exactly once, and the residual ones keep their order |
| `Placement.WhereKeepsRows` | crates/lora-compiler/src/pattern.rs:47-129 | the plan with conjuncts placed early and the residual filter on top yields, in order, the rows of the bare pattern on which the whole WHERE is true |
| `Planners.PatternPlanner.AttachReady` | crates/lora-compiler/src/pattern.rs:247-262 | splits `pending` in place and pushes at most one filter, as specified |
| `Planners.PatternPlanner.PlanNodeChain` | crates/lora-compiler/src/pattern.rs:164-245 | pushes the scan and the expansions of a chain, a filter after each where one is due |
| `Planners.PatternPlanner.PlanPart` | crates/lora-compiler/src/pattern.rs:104-162 | plans a part from the chosen end; only a chain without a path variable may start at its tail |
| `Planners.PatternPlanner.PlanPattern` | crates/lora-compiler/src/pattern.rs:88-102 | plans the parts in turn; an empty pattern is its input or one empty row |
| `Planners.PatternPlanner.PlanPatternWithWhere` | crates/lora-compiler/src/pattern.rs:47-86 | splits the WHERE, plans the pattern and hands back the residual conjuncts in WHERE order |
| `Planners.PatternPlanner.PlanMatch` | crates/lora-compiler/src/planner.rs:257-280 | a MATCH: the pattern with its residual conjuncts in one filter on top |
| `Planning.ReverseTwice` | crates/lora-compiler/src/pattern.rs:430-458 | reversing a chain twice gives the chain back |
| `Planning.ReverseVars` | crates/lora-compiler/src/pattern.rs:430-458 | a reversed chain has the same variables |
| `Walks.LabelCheckValue` | crates/lora-compiler/src/pattern.rs:632-652 | the label filter above an expansion asks exactly what a label scan asks, for non-empty groups |
| `Walks.InlineMapIs` | crates/lora-compiler/src/pattern.rs:654-684 | an inline map holds of a row exactly when every one of its keys is equal to its value there |
| `Walks.PropertyCheckStable` | crates/lora-compiler/src/pattern.rs:654-684 | an inline map is decided the same on any two parts of a row that show it the same of its variables |
| `Walks.ExpandFromSpec` | crates/lora-compiler/src/pattern.rs:227-245 | an expansion meets every hop in its direction exactly once, a self-loop included |
| `Walks.WalkRowIff` | crates/lora-compiler/src/pattern.rs:164-197 | for any inline maps, a walk yields a row exactly when the row adds the walk's bindings to the input and every check holds of what is bound by then |
| `Walks.ChainRowsAreWalks` | crates/lora-compiler/src/pattern.rs:164-197 | the rows of a planned chain are the rows of the walks in the graph |
| `Walks.PathsAreWalks` | crates/lora-compiler/src/pattern.rs:461-486 | in every row of a part with a path variable, the path lists the nodes of a walk in the graph along the chain as written, its head first, and the named relationships in the order walked |
| `Walks.ReverseMatches` | crates/lora-compiler/src/pattern.rs:430-458 | where maps see the same of their variables from both ends, a walk matches a chain exactly when the walk turned round matches the reversed chain |
| `Walks.ReversedWalks` | crates/lora-compiler/src/pattern.rs:430-458 | the walks of the reversed chain are the walks of the chain turned round, each once |
| `Walks.SameRowsFromEitherEnd` | crates/lora-compiler/src/pattern.rs:147-160 | a chain whose inline maps see the same of their variables bound from both ends, given what each input row binds, matches the same rows, each as often, from either end |
| `Walks.ClosedMapsSeeAlike` | crates/lora-compiler/src/pattern.rs:147-160 | they do when no map reads a variable that only the chain binds, but at most its own node's or, where nothing else has the name, its own relationship's |
| `Walks.EarlyTailIff` | crates/lora-compiler/src/pattern.rs:147-160 | a chain whose reversed walk reads, in any node's or relationship's map, a variable it has not bound yet keeps its rows exactly when it has none |
| `Walks.EitherEndIff` | crates/lora-compiler/src/pattern.rs:147-160 | where map entries are null without what they read, both ends match the same rows exactly when the maps see alike from both or nothing matches from either |
| `Walks.SharedNameIff` | crates/lora-compiler/src/pattern.rs:147-160 | a chain whose reversed walk leaves a node by a relationship of the same name keeps its rows exactly when it has none |
| `Walks.PatternPerm` | crates/lora-compiler/src/pattern.rs:88-162 | whichever ends its chains are walked from, a pattern matches the same rows; of chains walked from the same end in both nothing is asked |
| `Walks.PlanMatchCorrect` | crates/lora-compiler/src/pattern.rs:47-197 | placement and direction together: the plan has the rows of the pattern as written, read left to right and filtered by the whole WHERE; only chains walked from their tail are asked to be well formed |
| `Walks.ReadingChainDiffers` | crates/lora-compiler/src/pattern.rs:430-458 | a graph on which walking `(a)-[]->(b:L {k: a.k})` from its labelled, cheaper end loses a match |
| `Queries.ClausesRun` | crates/lora-compiler/src/planner.rs:75-85 | for every list of clauses, sub-plans included, the planned arena yields the clauses' rows one clause after another, and only grows |
| `Queries.OptionalRuns` | crates/lora-compiler/src/planner.rs:231-256 | OPTIONAL MATCH: each outer row with its matches that pass the WHERE, or once with the pattern's variables null |
| `Queries.UnmatchedNull` | crates/lora-executor/src/executor/optional.rs:109-116 | row by row of what the plan of an OPTIONAL MATCH yields: the matches that pass the WHERE, or the outer row itself with Null, and nothing else, for the rest of the pattern |
| `Queries.CallRuns` | crates/lora-compiler/src/planner.rs:171-229 | CALL: each outer row with the rows of the body and of its UNION branches under the head's names |
| `Queries.CalledIs` | crates/lora-executor/src/pull/call_subquery.rs:26-43 | each row of a subquery beside the outer row, whose bindings win; where a branch is a plain UNION, equal rows once |
| `Queries.BranchesRun` | crates/lora-compiler/src/planner.rs:186-221 | each UNION branch, planned on a fresh unit row, yields its body's rows renamed to the head's columns |
| `Queries.BranchesUnderHeads` | crates/lora-compiler/src/planner.rs:199-216 | for distinct heads a branch's row holds under the head's i-th name what its body's row holds at the output of its i-th RETURN item, and no other name |
| `Queries.WithRuns` | crates/lora-compiler/src/planner.rs:336-356 | WITH ... WHERE filters the clause's rows, after its SKIP and LIMIT |
| `Logical.UnwindIs` | crates/lora-executor/src/executor/helpers.rs:327-360 | UNWIND gives the row once for each element of a list, in turn |
| `Queries.ClausesGrow` | crates/lora-compiler/src/planner.rs:75-169 | every clause grows the arena as a forest in topological order whose new top nothing reads |
| `Queries.QueryRuns` | crates/lora-compiler/src/planner.rs:66-85 | a whole query, its chains walked from the chosen ends: the plan is one the optimizer may start from, and yields the query's rows |
| `Answers.RunIsAnswer` | apps/loradb.com/docs/queries/ordering.md:97-103 | the rows of an execution, sorts stable, are an answer of the query, which keeps every order a clause fixes for the clauses after it |
| `Answers.OneAnswer` | apps/loradb.com/docs/queries/ordering.md:97-103 | where no clause has SKIP or LIMIT and no grouping sees the order of its rows, every answer has the same rows, each as often, whatever order the clauses are given rows in |
| `Answers.SameAnswersIff` | apps/loradb.com/docs/functions/aggregation.md:285-292 | given rows in any order, a clause without SKIP and LIMIT answers the same rows exactly when its grouping makes the same of every order of them |
| `Answers.LastAnswer` | apps/loradb.com/docs/queries/ordering.md:84-103 | where only a last RETURN counts or collects, an answer is what it makes of some order of the rows of the others; of any order, where its grouping does not see it |
| `QueryRuns.SortedThen` | apps/loradb.com/docs/troubleshooting.md:797-800 | a clause directly after WITH ... ORDER BY, a grouping among them, is given a list in order of the keys: the rows the WITH sorted, limited, trimmed and filtered, in that order |
| `QueryRuns.CollectsSorted` | apps/loradb.com/docs/functions/aggregation.md:285-292 | so collecting the key there gives, in every group, its values in order |
| `QueryRuns.CollectSeesOrder` | crates/lora-executor/src/executor/aggregation.rs:36-76 | while collecting two rows in the other order gives another list |
| `QueryRuns.AnswerBetween` | crates/lora-compiler/src/planner.rs:75-169 | every answer binds what the clauses bind, at least and at most |
| `QueryRuns.ClauseMakes` | crates/lora-compiler/src/planner.rs:371-515 | however the operators of a WITH or RETURN run, what they make of any input is an answer of the clause: the wide rows sorted, limited and trimmed, or limited before projecting where nothing sorts, the input's order kept where it is fixed; any grouping, order-blind or not, is given the rows as they come |
| `QueryRuns.ClauseStill` | crates/lora-compiler/src/planner.rs:371-515 | a clause that sorts fixes the order of the planned rows, one that only projects and counts keeps it |
| `QueryRuns.PlannedClauseRuns` | crates/lora-compiler/src/planner.rs:389-515 | and so is what they have on the arena they are pushed onto |
| `QueryRuns.MatchRuns` | crates/lora-compiler/src/pattern.rs:47-129 | a run of a planned MATCH has the matches, each as often, for whatever rows it is given |
| `QueryRuns.ClauseInOrder` | crates/lora-compiler/src/planner.rs:75-165 | where a clause fixes or keeps the order of its rows, so does the node planned for it |
| `QueryRuns.ClausesAnswered` | crates/lora-compiler/src/planner.rs:75-229 | however the planned arena runs, OPTIONAL MATCH and CALL with UNION included, its top has an answer of the clauses to the rows of the input |
| `QueryRuns.QueryAnswered` | crates/lora-compiler/src/planner.rs:66-85 | so has the root of a whole query, from one empty row |
| `QueryRuns.AnswersAsWritten` | crates/lora-compiler/src/pattern.rs:147-160 | for every list of clauses, SKIP, LIMIT, collect and sub-plans included, walking chains from any ends gives exactly the answers of walking each from its head |
| `QueryRuns.RunsAsWritten` | crates/lora-compiler/src/pattern.rs:147-160 | so where nothing depends on the order of rows, the same rows, each as often |
| `PlannedOps.QueryScoped` | crates/lora-compiler/src/planner.rs:66-85 | clauses whose WHEREs read only what is in scope are planned to an arena where no filter reads what the projection below it lacks |
| `Compiled.PhysicalRun` | crates/lora-compiler/src/lib.rs:132-150 | from a plan to the one that runs, null tests folded, every pass done, constant calls folded: its rows are some the plan may have |
| `Compiled.CompiledQuery` | crates/lora-compiler/src/lib.rs:132-150 | every query, planned from whatever ends the cost model chose, folded and put through every pass, yields an answer of the query as written, whatever its groupings do |
| `Compiled.CompiledOrderless` | crates/lora-compiler/src/lib.rs:132-150 | without SKIP and LIMIT and with groupings that do not see order, the rows of the query as written, each as often |
| `Compiled.CompiledTopN` | crates/lora-compiler/src/lib.rs:132-150 | where only a last RETURN counts, groups or collects, what it makes of the rows of the others as written, in an order its keys and theirs allow |
| `Compiled.CompiledAfterSort` | crates/lora-compiler/src/lib.rs:132-150 | directly after WITH ... ORDER BY the last clause is given the rows in order of the keys, whatever became of the sort |
| `Compiled.CompiledCollect` | crates/lora-compiler/src/lib.rs:132-150 | `... WITH ... ORDER BY key RETURN ..., collect(key)` yields, for every group, the list in order of the key |
| `Compiled.CompilesAsked` | crates/lora-compiler/src/lib.rs:132-150 | conditions on the clauses, not on any plan, under which these hold for every catalog, cost model and folding |
| `PlannedOps.QueryPlanned` | crates/lora-compiler/src/planner.rs:66-85 | what the clauses are asked holds of every operator planned for them: the conjuncts of filters, the ends of expansions, counted SKIPs, and the way from each sort down to its scan |
| `SortOrder.PathClean` | crates/lora-compiler/src/optimizer.rs:95-137 | where items pass keys on or name them anew, over any number of projections, the key means the same all the way and so do the ranges of the filters between |
| `Compiled.FoldRuns` | crates/lora-compiler/src/param_fold.rs:43-59 | every run of the plan with its null tests folded is a run of the plan |
| `Compiled.FoldAllAsked` | crates/lora-compiler/src/param_fold.rs:43-59 | and folding leaves the operators as asked, the operand an OR is folded to included |
| `Compiled.RelAccessUnread` | crates/lora-compiler/src/optimizer.rs:815-926 | whatever index or id seek is chosen, a relationship access path reads only what the conjuncts naming the relationship do |
| `Compiled.SitesAsked` | crates/lora-compiler/src/optimizer.rs:25-32 | and then every pass finds its conditions on the arena it starts from |
| `Planners.Planner.PlanClauses` | crates/lora-compiler/src/planner.rs:75-85 | the loop over clauses, appending to one arena |
| `Planners.Planner.PlanClause` | crates/lora-compiler/src/planner.rs:110-165 | one clause, sub-plans included |
| `Planners.Planner.Plan` | crates/lora-compiler/src/planner.rs:66-73 | a whole query on a fresh arena |
| `Planners.Planner.PlanBranches` | crates/lora-compiler/src/planner.rs:186-221 | the loop over UNION branches |
| `Queries.PushForest` | crates/lora-compiler/src/planner.rs:45-49 | pushing an operator over inputs nothing reads keeps the arena a forest in topological order, and nothing reads the new id |
| `Queries.MatchGrows` | crates/lora-compiler/src/pattern.rs:47-262 | planning a MATCH grows the forest on its input, for every pattern and WHERE |
| `Queries.ClauseGrows` | crates/lora-compiler/src/planner.rs:389-515 | so does planning a WITH or RETURN |
| `Queries.FinishedPlan` | crates/lora-compiler/src/planner.rs:66-73 | a finished plan meets the shape every optimizer pass keeps |
| `Arena.DenoteAgrees` | crates/lora-compiler/src/planner.rs:45-49 | a node's rows depend only on the nodes up to it, so later pushes do not change them |
| `FilterPush.SwapIff` | crates/lora-compiler/src/optimizer.rs:339-351 | a filter that names no output may go below the projection, for every input, exactly when it decides the same on every row |
| `FilterPush.PushedReadsNothing` | crates/lora-compiler/src/optimizer.rs:339-351 | where predicates are well scoped, a filter the guard lets through reads no variable |
| `FilterPush.PushAtShape` | crates/lora-compiler/src/optimizer.rs:353-377 | the swap of two nodes in place keeps root, length and the forest, and touches no other node |
| `FilterPush.PushKeepsRows` | crates/lora-compiler/src/optimizer.rs:34-53 | the whole pass keeps the rows of an execution, in order, at the root and at every node no filter, projection or sort reads |
| `FilterPush.PushRuns` | crates/lora-compiler/src/optimizer.rs:34-53 | and every run of the plan after it is a run of the plan before it, with the rows of the root |
| `Runs.ExactIsRun` | crates/lora-compiler/src/optimizer.rs:20-33 | every execution of a plan is a run of it |
| `Runs.UncountedRun` | crates/lora-compiler/src/optimizer.rs:20-33 | in a plan that counts no rows and whose groupings do not see their order, a run has the rows of the execution, each as often, at every node |
| `Runs.RegionRun` | crates/lora-compiler/src/optimizer.rs:20-33 | a rewrite confined to nodes only its top reads: a run of the rewritten plan, sub-plans and LIMITs above included, is one of the plan, once the nodes inside have rows that allow the rows of its top |
| `Arena.LiftSame` | crates/lora-compiler/src/optimizer.rs:20-33 | a confined rewrite that keeps its top row for row keeps every node above row for row |
| `RangeBounds.Collector.Add` | crates/lora-compiler/src/optimizer.rs:1321-1344 | adds one bound in place, keeping the tighter of two literals and both of any others |
| `RangeBounds.Collect` | crates/lora-compiler/src/optimizer.rs:1347-1361 | collects the bounds on the first property compared |
| `RangeBounds.RangeIsSafe` | crates/lora-compiler/src/optimizer.rs:1321-1361 | over any comparisons in any order, the range found contains every value that satisfies them, however literals round |
| `RangeBounds.RangeIsTight` | crates/lora-compiler/src/optimizer.rs:1446-1511 | where integer literals convert exactly and kinds agree, the range is exactly their intersection |
| `RangeBounds.LiteralsCompare` | crates/lora-compiler/src/optimizer.rs:1477-1511 | literals the plan orders are ordered the same when evaluated |
| `RangeBounds.PrefixIsRange` | crates/lora-compiler/src/optimizer.rs:1429-1444 | a text starts with `s` exactly when it lies from `s` up to, not including, the prefix end |
| `RangeBounds.EndPrepends` | crates/lora-executor/src/eval/builtins/string_ns.rs:64-87 | the prefix end, said from the front of the text |
| `Accesses.AccessStable` | crates/lora-compiler/src/optimizer.rs:641-809 | an access path that does not read a variable finds the same before and after it is bound |
| `Accesses.EqualitySound` | crates/lora-compiler/src/optimizer.rs:1752-1779 | `v.key = value` true means the stored value is that value |
| `Accesses.InListSound` | crates/lora-compiler/src/optimizer.rs:1781-1800 | `v.key IN list` true means the stored value is in the list |
| `Accesses.ElementTestSound` | crates/lora-compiler/src/optimizer.rs:1802-1856 | an element test true means the stored list holds the element |
| `Accesses.AnyElementSound` | crates/lora-compiler/src/optimizer.rs:1870-1943 | a disjunction of element tests true means the stored list holds one of them |
| `Accesses.IdSeekSound` | crates/lora-compiler/src/optimizer.rs:1701-1741 | an id seek finds every entity the predicate is true of, without reading its variable |
| `Accesses.VisitsSound` | crates/lora-compiler/src/optimizer.rs:1513-1563 | every comparison visited is true of the stored value when the AND-tree is |
| `Accesses.FirstTextSound` | crates/lora-compiler/src/optimizer.rs:1650-1680 | a true text test puts the entity among those a text index finds, unless CONTAINS is asked of a list |
| `Accesses.FirstPointSound` | crates/lora-compiler/src/optimizer.rs:1576-1648 | a true spatial test puts the entity among those a point index finds |
| `Accesses.PrefixSound` | crates/lora-compiler/src/optimizer.rs:1429-1444 | a true STARTS WITH holds the two bounds the prefix adds |
| `Accesses.NodeCandidateSound` | crates/lora-compiler/src/optimizer.rs:641-809 | every candidate for a node scan finds each node the predicate is true of, with a value computed before the node is bound |
| `Accesses.RelCandidateSound` | crates/lora-compiler/src/optimizer.rs:815-926 | every candidate for a relationship, likewise |
| `Accesses.RangesSound` | crates/lora-compiler/src/optimizer.rs:706-760 | the ranges offered, a prefix merged in where it tests the same property, hold of the stored value |
| `Accesses.ContainsIff` | crates/lora-compiler/src/optimizer.rs:1650-1680 | the text candidate misses a true test exactly when CONTAINS is asked of a stored list that holds the value |
| `NodeSeeks.SeekStep` | crates/lora-compiler/src/optimizer.rs:221-252 | under the filter that stays above, scan and seek keep the same rows of every input row, its variable bound or not |
| `NodeSeeks.SeekDenotes` | crates/lora-compiler/src/optimizer.rs:221-252 | the rewritten site has the rows it had |
| `NodeSeeks.SeekRuns` | crates/lora-compiler/src/optimizer.rs:221-252 | every run of the plan after the whole pass is a run of the plan before it, with the rows of the root, LIMITs above or not |
| `NodeSeeks.SeekKeepsPlan` | crates/lora-compiler/src/optimizer.rs:221-252 | and the plan stays a forest in topological order |
| `RelSeeks.SameWalks` | crates/lora-compiler/src/optimizer.rs:261-325 | summing the relationships at every node is summing the orientations of every relationship, for all three directions |
| `RelSeeks.SeekKeepsIff` | crates/lora-compiler/src/optimizer.rs:261-325 | the relationship seek keeps the rows under the filter exactly when it finds, from its input row, the relationship of every match the filter keeps |
| `RelSeeks.SiteSeeksEvery` | crates/lora-compiler/src/optimizer.rs:261-325 | it does find them when the value reads neither node of the pattern |
| `RelSeeks.RelSeekRowsKept` | crates/lora-compiler/src/optimizer.rs:261-325 | then the filter keeps the same rows of either, whatever is upstream |
| `RelSeeks.RelSeekAtForest` | crates/lora-compiler/src/optimizer.rs:261-325 | the rewrite cuts its scan off and keeps what is in use a forest |
| `RelSeeks.RelSeekRuns` | crates/lora-compiler/src/optimizer.rs:261-325 | every run of the plan after the whole pass is a run of the plan before it, with the rows of the root, LIMITs above or not |
| `RelSeeks.RelSeekKeepsPlan` | crates/lora-compiler/src/optimizer.rs:261-325 | and what is in use stays a forest |
| `LostRows.UnboundSeekIff` | crates/lora-compiler/src/optimizer.rs:261-325 | an id seek whose value is a property of a variable not bound yet keeps the rows exactly when there are none |
| `LostRows.FavouriteIsLost` | crates/lora-compiler/src/optimizer.rs:261-325 | `MATCH (a)-[r]->(b) WHERE id(r) = a.favourite` has a match that the rewritten plan does not |
| `Sorting.SortSorts` | crates/lora-compiler/src/logical.rs:382-401 | the sort puts rows in order of its keys, nulls where each key says |
| `Sorting.NotAfterIff` | crates/lora-compiler/src/logical.rs:382-401 | a row may come before another exactly when the first key they do not tie on puts it first, by direction and where the key puts nulls |
| `Sorting.SortKeeps` | crates/lora-compiler/src/logical.rs:382-401 | and keeps the rows, each as often |
| `Sorting.SortStable` | crates/lora-compiler/src/logical.rs:382-401 | rows equal on every key keep their arrival order |
| `Sorting.PartialSortIsSort` | crates/lora-compiler/src/logical.rs:394-401 | on input in order of the leading keys, sorting run by run is the full stable sort, row for row |
| `SortOrder.ProjectedKey` | crates/lora-compiler/src/optimizer.rs:95-137 | above and below a projection whose outputs are fresh or passed on, the key has the same value |
| `SortOrder.PathKey` | crates/lora-compiler/src/optimizer.rs:95-137 | so it has down the whole path from the sort to the scan |
| `SortOrder.PathRows` | crates/lora-compiler/src/optimizer.rs:95-137 | the rows at the sort are the scan's rows, each through the path |
| `SortOrder.BesideNullSound` | crates/lora-compiler/src/optimizer.rs:1363-1427 | `range OR key IS NULL` true leaves the key null or inside the range |
| `SortOrder.PathInRange` | crates/lora-compiler/src/optimizer.rs:1363-1427 | every row that reaches the sort comes from a node the ordered scan finds |
| `OrderPass.PathSorted` | crates/lora-compiler/src/optimizer.rs:77-181 | the ordered scan's rows reach the sort in order of the key, nulls before or after as asked |
| `OrderPass.OrderAtServes` | crates/lora-compiler/src/optimizer.rs:77-181 | dropping the sort, or shrinking it to its other keys, gives the same rows sorted by all keys |
| `OrderPass.ServedIff` | crates/lora-compiler/src/optimizer.rs:77-181 | a sort served from an ordered scan has the rows it had exactly when the scan finds every node with a row that reaches the sort |
| `OrderPass.UnboundBoundIff` | crates/lora-compiler/src/optimizer.rs:1363-1427 | with a lower bound that is null without a variable the scan lacks, exactly when every node that reaches the sort lacks the key |
| `OrderPass.SitesStayClean` | crates/lora-compiler/src/optimizer.rs:55-75 | serving one sort leaves every later site clean, so clean sites can be read off the arena the pass starts from |
| `OrderPass.OrderRuns` | crates/lora-compiler/src/optimizer.rs:55-181 | from clean sites, every run of the plan with its sorts served is a run of the plan with the sorts: the served rows are in an order the sort allows |
| `OrderPass.OrderKeepsPlan` | crates/lora-compiler/src/optimizer.rs:55-181 | and the plan stays a forest |
| `OrderPass.NullBoundFinds` | crates/lora-compiler/src/optimizer.rs:1363-1427 | an ordered scan whose lower bound is null at the scan finds exactly the nodes without the key |
| `LostRows.AliasIsLost` | crates/lora-compiler/src/optimizer.rs:95-137 | the plan the planner makes of `MATCH (n:L) WITH *, 5 AS y WHERE n.k > y OR n.k IS NULL RETURN n ORDER BY n.k` has a row that the same plan served from the index does not |
| `TopK.LimitOfAnnotated` | crates/lora-compiler/src/optimizer.rs:1985-2021 | a sort told its row bound leaves what SKIP and LIMIT yield, when SKIP is counted |
| `TopK.TopKIff` | crates/lora-compiler/src/optimizer.rs:1985-2021 | the static bound loses no row, over all inputs, exactly when SKIP is absent, literal or zero, or LIMIT is not literal or takes nothing |
| `TopK.StaticCountIsCount` | crates/lora-compiler/src/optimizer.rs:2014-2021 | a literal count: negative as zero, saturating at the largest size |
| `Logical.LimitIs` | crates/lora-executor/src/executor/helpers.rs:402-423 | SKIP and LIMIT leave a run of the rows: those after the first `skip`, at most `limit` of them |
| `TopK.NoBoundSaturates` | crates/lora-compiler/src/optimizer.rs:1985-2021 | no bound of two 64-bit counts saturates where sizes have 64 bits |
| `TopK.AnnotateKeepsRows` | crates/lora-compiler/src/optimizer.rs:183-214 | the whole pass keeps the rows of an execution at the root, row for row |
| `TopK.AnnotateRuns` | crates/lora-compiler/src/optimizer.rs:183-214 | and every run of the plan with the bounds is a run of the plan without them |
| `Optimizing.LogicalPlan.PushFilterBelowProjection` | crates/lora-compiler/src/optimizer.rs:34-53 | the pass as a loop over ids that overwrites nodes |
| `Optimizing.LogicalPlan.UseIndexedNodeScans` | crates/lora-compiler/src/optimizer.rs:221-252 | likewise |
| `Optimizing.LogicalPlan.UseIndexedRelScans` | crates/lora-compiler/src/optimizer.rs:261-325 | likewise |
| `Optimizing.LogicalPlan.FindScan` | crates/lora-compiler/src/optimizer.rs:95-114 | the walk down from a sort ends at the scan that could serve it, or gives up |
| `Optimizing.LogicalPlan.ServeSort` | crates/lora-compiler/src/optimizer.rs:77-181 | one sort, served in place: the scan told its order, the sort dropped or shrunk |
| `Optimizing.LogicalPlan.UseIndexOrderForSorts` | crates/lora-compiler/src/optimizer.rs:77-181 | the pass as a loop over the sorts |
| `Optimizing.LogicalPlan.AnnotateTopKSorts` | crates/lora-compiler/src/optimizer.rs:183-214 | the pass that writes row bounds into sorts |
| `Optimizing.LogicalPlan.Optimize` | crates/lora-compiler/src/optimizer.rs:25-32 | the passes in their order, to the arena `OptimizedRuns` speaks of |
| `Optimizing.LimitsStayFit` | crates/lora-compiler/src/optimizer.rs:25-32 | no pass makes a LIMIT that could lose rows where there was none |
| `Optimizing.OptimizedRuns` | crates/lora-compiler/src/optimizer.rs:25-32 | for every plan, LIMITs anywhere, a run of the optimized plan is one the plan as planned allows, with the same rows at the root |
| `Optimizing.OptimizedExecution` | crates/lora-compiler/src/optimizer.rs:25-32 | so what the optimized plan yields when executed the plan may yield |
| `Optimizing.OptimizedKeepsRows` | crates/lora-compiler/src/optimizer.rs:25-32 | and where nothing counts rows or sees their order, it yields the rows of the plan, each as often |
| `ParamFold.NullTestFolder.Fold` | crates/lora-compiler/src/param_fold.rs:281-347 | folds an expression and writes down the nullness of every parameter it tested |
| `ParamFold.NullTestFolder.FoldPlan` | crates/lora-compiler/src/param_fold.rs:43-59 | folds every filter that mentions a test, in place |
| `ParamFold.NoTests` | crates/lora-compiler/src/param_fold.rs:245-264 | a test is mentioned exactly where one would be folded |
| `ParamFold.FoldKeepsTruth` | crates/lora-compiler/src/param_fold.rs:281-347 | folding keeps the three-valued truth of every predicate for parameters of the assumed nullness |
| `ParamFold.FoldKeepsValue` | crates/lora-compiler/src/param_fold.rs:281-347 | and the value itself where operands are boolean or null |
| `ParamFold.FoldKeepsRows` | crates/lora-compiler/src/param_fold.rs:43-59 | the folded plan has the same rows at every node |
| `ParamFold.FitsMeansSamePlan` | crates/lora-compiler/src/lib.rs:48-56 | where `fits` holds for other parameters, compiling for them gives the identical plans and assumptions |
| `ParamFold.FittingPlanIsRight` | crates/lora-compiler/src/lib.rs:94-131 | so a cached plan answers the query for every parameter set that fits |
| `CallFold.FoldKeepsOutcome` | crates/lora-compiler/src/param_fold.rs:132-243 | constant call folding keeps the value or the error of every expression on every row, for a callback that returns only values the call produces |
| `CallFold.FoldTwice` | crates/lora-compiler/src/param_fold.rs:132-243 | one pass is a fixed point |
| `CallFold.FoldConstantCalls` | crates/lora-compiler/src/param_fold.rs:66-130 | the in-place pass over every operator |
| `CallFold.FoldOpsKeepRows` | crates/lora-compiler/src/param_fold.rs:66-130 | the folded plan has the same rows at every node |
| `Clauses.ClausePlanner.PlanProjectionOrAggregation` | crates/lora-compiler/src/planner.rs:517-628 | pushes the projection, the grouping, or the grouping and what completes lifted aggregates |
| `Clauses.AggregatesIff` | crates/lora-compiler/src/planner.rs:768-802 | an expression aggregates exactly when an aggregate call, DISTINCT or not, occurs in it |
| `Clauses.GroupedBy` | crates/lora-compiler/src/planner.rs:517-628 | a clause groups exactly when an item holds such a call or columns were lifted; by the items that hold none and read no lifted column, aggregating those that hold one and the lifted ones, each as often as given |
| `Clauses.FinalColumn` | crates/lora-compiler/src/planner.rs:584-628 | of a grouped row, an item that reads a lifted column is evaluated and any other keeps the column the grouping gave it |
| `Clauses.ClausePlanner.PlanProjectionSortLimit` | crates/lora-compiler/src/planner.rs:389-515 | pushes projection, sort, limit and trim in the order the clause needs |
| `Clauses.PushAllDenotes` | crates/lora-compiler/src/planner.rs:389-515 | operators pushed one on another apply one after another |
| `Clauses.UnorderedClause` | crates/lora-compiler/src/planner.rs:371-515 | without ORDER BY, limiting before projecting gives the clause's rows |
| `Clauses.OrderedClause` | crates/lora-compiler/src/planner.rs:371-515 | with ORDER BY, keys may read aliases and original variables, and the row is trimmed to the columns in the end |
| `Clauses.ReadsCompare` | crates/lora-compiler/src/planner.rs:687-735 | a key redirected to the column of the same property read orders every two rows as before |
| `Clauses.RestatedKey` | crates/lora-compiler/src/planner.rs:657-685 | a key that restates a projected expression reads from its column the value it had |
| `Clauses.DistinctClause` | crates/lora-compiler/src/planner.rs:371-515 | DISTINCT comes before the sort and the limit |
| `Clauses.LiftedGroups` | crates/lora-compiler/src/planner.rs:584-628 | lifted aggregates are computed with the groups, of the rows in their order, seen by the sort, and gone from the result |
| `Clauses.PlanFollowsCypher` | crates/lora-compiler/src/planner.rs:371-515 | for every input the planned operators yield the rows projected or grouped in their order, then sorted, then limited, then trimmed |
| `Clauses.PlannedClause` | crates/lora-compiler/src/planner.rs:389-515 | and so does the arena they are pushed onto |
| `PlanTrees.VisitsEachOnce` | crates/lora-compiler/src/plan_tree.rs:100-119 | building the tree visits exactly the nodes reachable from the root, each once |
| `PlanTrees.DropChildren` | crates/lora-compiler/src/plan_tree.rs:43-52 | the loop frees every node below the root exactly once |
| `StackGuard.Thread.GuardWith` | crates/lora-ast/src/stack.rs:110-119 | over any tree of nested guards: every step starts with its red zone free, and the limit is the true bound, after a return and after a panic |
| `StackGuard.Thread.Low` | crates/lora-ast/src/stack.rs:121-156 | the slow path looks the bound up, and where the stack is low moves to a new segment and back |
| `StackGuard.Thread.Run` | crates/lora-ast/src/stack.rs:110-164 | the guarded step, with the limit the true bound throughout |
| `PatternSeeks.Collect` | crates/lora-analyzer/src/resolved.rs:376-437 | the explicit-stack loop gives the seeks of the WHERE's conjuncts in order |
| `PatternSeeks.SeeksPin` | crates/lora-analyzer/src/resolved.rs:376-437 | exactly the conjuncts `v.key = value`, `value = v.key`, `v.key IN value` and `v.key STARTS WITH value` of a node of the pattern and a value it does not bind are collected |
| `PatternSeeks.SeekImplied` | crates/lora-analyzer/src/resolved.rs:355-437 | every seek collected is implied by the WHERE, with a value that is the same before the pattern binds anything |
| `Handle.RunInv` | crates/bindings/lora-go/lora.go:251-266 | the lock and the handle agree in every state of every interleaving |
| `Handle.NoUseAfterFree` | crates/bindings/lora-go/lora.go:408-451 | over every interleaving no native call runs on a freed handle or while one is being freed, and the handle is freed at most once |
| `Handle.LeftAfterCall` | crates/bindings/lora-go/lora.go:408-451 | in every run, a use that leaves without finding the database closed has made its native call, and a Close that does so has freed the handle |
| `Handle.ClosedForGood` | crates/bindings/lora-go/lora.go:776-819 | once closed, every later call finds it closed |
| `Handle.CloseCloses` | crates/bindings/lora-go/lora.go:251-266 | a Close on its way out leaves no handle, and a call that reports the database closed is right |
| `RowIterators.RowIterator.PullBatch` | crates/bindings/lora-go/lora.go:635-668 | one native pull: a batch held, or the stream freed at its end or on an error |
| `RowIterators.RowIterator.Next` | crates/bindings/lora-go/lora.go:615-633 | hands out the stream's next row; at the end all were handed out and the error is the stream's; once over no pull happens |
| `RowIterators.RowIterator.Close` | crates/bindings/lora-go/lora.go:685-697 | frees the stream unless it is freed, so exactly once, and leaves the error as it was |
| `RowIterators.Drive` | crates/bindings/lora-go/lora.go:576-697 | over any sequence of calls the rows handed out are a prefix of the stream's |
| `Wire.LERoundTrip` | crates/bindings/lora-binding-buffer/src/lib.rs:326-334 | little-endian integers read back |
| `Wire.LEByte` | crates/bindings/lora-binding-buffer/src/lib.rs:326-334 | the least significant byte comes first |
| `Wire.SignedRoundTrip` | crates/bindings/lora-binding-buffer/src/lib.rs:148-180 | two's complement integers read back, at every width |
| `Wire.TwosComplement` | crates/bindings/lora-binding-buffer/src/lib.rs:148-180 | and a signed integer is laid out as the number modulo the values of its bytes |
| `Wire.ComponentsBack` | crates/bindings/lora-binding-buffer/src/lib.rs:259-303 | integer vector components read back, at every width |
| `RoundTrip.CellBack` | crates/bindings/lora-binding-buffer/src/lib.rs:148-334 | every nested value the tag table can lay out reads back as itself, whatever bytes follow, and reading stops at its end |
| `GoReaders.GoIs` | crates/bindings/lora-binding-buffer/src/lib.rs:148-334 | a value is laid out as a cell exactly when the cell is one the encoder chooses and reads as that value, nested values and maps included |
| `GoReaders.ValueBack` | crates/bindings/lora-go/decode_buffer.go:116-277 | so the bytes the encoder writes for a value read back as that value, whatever follows, and reading stops there |
| `GoReaders.Reader.Value` | crates/bindings/lora-go/decode_buffer.go:116-277 | returns the value of the cell the bytes start with, by `GoReaders.ValueBack` the value encoded, with the offset at its end, or fails where the bytes end or the tag is unknown |
| `GoReaders.Reader.Record` | crates/bindings/lora-go/decode_buffer.go:150-277 | the records, points, vectors with integer components as integers, and binaries |
| `Frames.TableBack` | crates/bindings/lora-binding-buffer/src/lib.rs:126-146 | a whole result reads back |
| `Frames.DecodeBuffer` | crates/bindings/lora-go/decode_buffer.go:278-313 | checks the header and decodes columns and rows; the later of two equal names wins |
| `Frames.ResultBack` | crates/bindings/lora-go/decode_buffer.go:278-313 | a result reads back with every value under the name of its column, for distinct names |
| `Frames.FramesTile` | crates/bindings/lora-go/decode_buffer.go:315-342 | a transaction buffer is accepted exactly when its frames tile it and each holds a result, and then yields them in order |
| `Frames.DecodeTransactionBuffer` | crates/bindings/lora-go/decode_buffer.go:315-342 | the loop over frames |
| `TsReaders.Reader.I64` | crates/bindings/shared-ts/decode.ts:110-129 | exact for all 2^64 inputs, a number where -2^53 <= v < 2^53 and a bigint elsewhere |
| `TsReaders.IntIsExact` | crates/bindings/shared-ts/decode.ts:110-129 | so the value is never changed, and every number given is one binary64 holds |
| `TsReaders.IdIsExactIff` | crates/bindings/shared-ts/decode.ts:131-136 | an id is read as itself exactly when a number can hold it |
| `TsReaders.IdsCollide` | crates/bindings/shared-ts/decode.ts:131-136 | any other id is read as another id is |
| `TsReaders.SomeIdCollides` | crates/bindings/shared-ts/decode.ts:131-136 | and there are such ids among the 64-bit ones |
| `TsReaders.Reader.ReadValue` | crates/bindings/shared-ts/decode.ts:156-245 | consumes the bytes the Go reader does and returns the same value, its numbers as above |
| `TsReaders.ReadersAgree` | crates/bindings/shared-ts/decode.ts:156-245 | both readers give the same value of every cell: integers exact, ids and 64-bit vector components as rounded numbers |
| `TsReaders.Reader.ReadVectorCell` | crates/bindings/shared-ts/decode.ts:247-290 | vectors: 64-bit components as rounded numbers, narrower integers exact |
| `TsReaders.JoinTells` | crates/bindings/shared-ts/decode.ts:317-338 | the cache key tells any two column lists without U+001F apart |
| `TsReaders.JoinConfuses` | crates/bindings/shared-ts/decode.ts:317-338 | a name with U+001F shares its key with another list |
| `TsReaders.FactoryCache.RowFactory` | crates/bindings/shared-ts/decode.ts:317-338 | the factory is the one for the columns exactly when its key was free or held by them |
| `TsTables.MakeRow` | crates/bindings/shared-ts/decode.ts:326-336 | a factory reads one value for each of its columns |
| `TsTables.TablesAgree` | crates/bindings/shared-ts/decode.ts:326-336 | and the same rows of a result, name by name |
| `TsTables.DecodeResult` | crates/bindings/shared-ts/decode.ts:344-375 | the table of every buffer the encoder laid out, its rows through the cached factory |

## Left out

- Planners.PatternPlanner.PlanPart: does not model shortestPath and variable-length relationships, whose path filtering and bounds are not part of the equivalence.
- Planners.Planner.PlanClause: does not model Create, Merge, Set, Delete, Remove and Foreach, which only pass through the arena.
- Planners.Planner.PlanClauses: does not keep the set of bound variables, which only steers the cost model; which end a chain starts from is a free choice here.
- Queries.OptionalRuns: takes a path variable of the pattern to be new to the outer row, as the analyzer makes it.
- Queries.BranchesUnderHeads: takes the columns of the head to be distinct, as the analyzer makes them; a branch without a RETURN, which it refuses, has no columns here.
- Queries.QueryRuns: reads each pattern from the ends the planner chose (`Part.fromTail`); that the ends do not show is `QueryRuns.AnswersAsWritten`.
- Walks.SameRowsFromEitherEnd: takes label groups to be non-empty, as the parser makes them, no relationship to be named like a node at one of its ends (`Walks.SharedNameIff`; the executor raises a type error from one end there), and every inline map to see the same of its variables bound from both ends, which is all that map entries that are null without their variables allow (`Walks.EitherEndIff`).
- Walks.PathsAreWalks: takes no relationship to be named like the node it leads to, where the executor raises a type error.
- NodeSeeks.SeekRuns: takes list predicates not to rebind the scanned variable and no CONTAINS to meet a stored list, because the rows then differ (`Accesses.ContainsIff`); index contents are taken to be exact.
- RelSeeks.RelSeekRuns: takes the seek value to read neither node of the pattern, because the rows then may differ (`RelSeeks.SeekKeepsIff`).
- OrderPass.OrderRuns: takes the sites to be clean on the arena the pass starts from (`OrderPass.OrderSite`); where a site is not, `OrderPass.ServedIff` says exactly when its rows are kept.
- Optimizing.OptimizedRuns: compares the rows of the root; a run fixes one answer of a sub-plan for each outer row, so two equal outer rows get the same.
- Compiled.CompilesAsked: asks that every SKIP beside a literal LIMIT be counted, sorted or not, and of a WHERE over a WITH that only projects, before an ORDER BY, that no OR in it name several variables; elsewhere `Compiled.CompiledQuery` asks its conditions of the plan (`Compiled.SitesFit`).
- Compiled.CompiledQuery: speaks of one query; each branch of a top-level UNION is compiled as a query of its own, with the same parameters, and joining their rows is the executor's.
- Answers.Answer: lets DISTINCT, grouping, MATCH and CALL give their rows in any order; the executor keeps the order of rows through DISTINCT and gives groups in order of their keys, which nothing promises.
- TopK.AnnotateRuns: takes no literal bound to reach the largest size a machine word holds, as none does in 64 bits (`TopK.NoBoundSaturates`); `TopK.LimitOfAnnotated` covers such a bound for as many rows as it counts.
- RangeBounds.RangeIsTight: covers bounds of the compared value's kind, integers and texts; floats, temporal values and mixed kinds are only covered by `RangeBounds.RangeIsSafe`.
- Accesses.RelCandidateSound: models the four relationship scans as one seek with an access path; their lowering to physical operators is left out.
- Clauses.PlanFollowsCypher: takes grouping as any function of the list of rows to group that yields the columns asked for; of aggregate functions only the order `collect` keeps is spoken of.
- ParamFold.FoldKeepsTruth: states the truth value rather than the value for operands that are neither boolean nor null, where the folder turns a truthy operand's connective into that operand (`ParamFold.FoldKeepsValue` covers the rest).
- CallFold.FoldTwice: the callback is a function, so it answers the same each time; volatile functions are left out.
- StackGuard.Thread.GuardWith: models the default segment size only, not the test override, and where the platform tells no bound it asks that the stack be large enough; the red zone is that of an optimised build.
- Handle.NoUseAfterFree: a reader may overtake a waiting writer, so the model allows more interleavings than the Go runtime does.
- RowIterators.RowIterator.Next: the mutex around it is left out, since every method holds it throughout; Columns is left out.
- GoReaders.Reader.Value: text and float bits are kept as bytes, in vectors too, so UTF-8 decoding and float conversion are not modelled; a panic from reading past the end is a result here.
- TsReaders.Reader.ReadValue: asks for a buffer the encoder laid out, since the reader does not check for its end; an object's `__proto__` key is not modelled.
- TsTables.DecodeResult: asks that no column name seen holds U+001F, because another list's factory may otherwise be used (`TsReaders.JoinConfuses`).
- Expression errors are modelled only for constant call folding; elsewhere a type error reads as null or no rows, and the order in which errors in a WHERE arise is left out.
- Integers in expressions are unbounded; overflow of 64-bit arithmetic is left out. Literal bounds convert to floats by any monotone function.
- Builtin functions are known by contract (`has_label`, ids, `string.prefix_end`, spatial tests); their name tables and Unicode handling are left out.
- Slices, list comprehensions, `reduce` and map projections are not among the expressions; EXISTS and pattern comprehensions are opaque functions of the variables they read.
- Cost estimates and graph statistics only choose between equivalent plans and are arbitrary choices here; whether a box holds every point is a parameter.
- The executor, the store, the WAL, the snapshot codec, the parser and the analyzer's resolution are left out; operators have the meaning `logical.dfy` gives them.
- EXPLAIN text, error-code tables, parameter encoding and other foreign calls of the bindings are left out: they would only add easy members.
