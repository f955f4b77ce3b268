/** Access paths a predicate on one variable offers: what an id seek or an
    index can look up before the variable is bound. */
module Accesses {
  import opened Values
  import opened Expressions
  import opened Conjuncts
  import opened Sorting
  import opened Logical
  import opened RangeBounds

  datatype IndexKind = RangeIndex | TextIndex | PointIndex

  /** Which indexes exist, by kind, label or relationship type, and key. */
  type Catalog = (IndexKind, string, string) -> bool

  /** A property key and the value it is tested against. */
  datatype Keyed = Keyed(key: string, value: Expr)

  const NODE_ID_FUNCTIONS: set<string> := {"value.id", "node.id"}
  const REL_ID_FUNCTIONS: set<string> := {"value.id", "edge.id"}

  // ----- one conjunct -----

  /** `v.key = value`, either way round. */
  function EqualityOf(c: Expr, v: VarId): Option<Keyed> {
    if !c.Binary? || !c.op.Eq? then None
    else
      var l, r := PropertyAccess(c.lhs, v), PropertyAccess(c.rhs, v);
      if l.Some? && v !in Vars(c.rhs) then Some(Keyed(l.value, c.rhs))
      else if r.Some? && v !in Vars(c.lhs) then Some(Keyed(r.value, c.lhs))
      else None
  }

  /** `v.key IN list`. */
  function InListOf(c: Expr, v: VarId): Option<Keyed> {
    if !c.Binary? || !c.op.In? || v in Vars(c.rhs) then None
    else match PropertyAccess(c.lhs, v)
      case Some(key) => Some(Keyed(key, c.rhs))
      case None => None
  }

  /** `value IN v.key`, or `any(x IN v.key WHERE x = value)`. */
  function ElementTestOf(c: Expr, v: VarId): Option<Keyed> {
    if c.Binary? && c.op.In? then
      var key := PropertyAccess(c.rhs, v);
      if key.None? || v in Vars(c.lhs) then None else Some(Keyed(key.value, c.lhs))
    else if c.ListPredicate? && c.kind.Any? && c.pred.Binary? && c.pred.op.Eq? then
      var key, x := PropertyAccess(c.list, v), Variable(c.element);
      if key.None? || (c.pred.lhs != x && c.pred.rhs != x) then None
      else
        var value := if c.pred.lhs == x then c.pred.rhs else c.pred.lhs;
        if v in Vars(value) || c.element in Vars(value) then None else Some(Keyed(key.value, value))
    else None
  }

  /** The values of disjuncts that each are one element test on `key`. */
  function ElementValues(ds: seq<Expr>, v: VarId, key: string): Option<seq<Expr>> {
    if ds == [] then Some([])
    else match ElementTestOf(ds[0], v)
      case None => None
      case Some(k) =>
        if k.key != key then None
        else match ElementValues(ds[1..], v, key)
          case None => None
          case Some(rest) => Some([k.value] + rest)
  }

  /** A test that holds when the list in `v.key` holds any of several values,
      as the list of those values. */
  function AnyElementTestOf(c: Expr, v: VarId): Option<Keyed> {
    if IsOr(c) then
      var ds := DisjunctsOf(c);
      match ElementTestOf(ds[0], v)
      case None => None
      case Some(k) =>
        match ElementValues(ds, v, k.key)
        case None => None
        case Some(values) => Some(Keyed(k.key, ListOf(values)))
    else if c.ListPredicate? && c.kind.Any? && c.pred.Binary? && c.pred.op.In?
         && c.pred.lhs == Variable(c.element)
    then
      var stored, given := PropertyAccess(c.pred.rhs, v), PropertyAccess(c.list, v);
      if stored.Some? then
        if v in Vars(c.list) || c.element in Vars(c.list) then None else Some(Keyed(stored.value, c.list))
      else if given.Some? then
        if v in Vars(c.pred.rhs) || c.element in Vars(c.pred.rhs) then None
        else Some(Keyed(given.value, c.pred.rhs))
      else None
    else None
  }

  /** The first text test of an AND-tree. */
  function FirstText(e: Expr, v: VarId): (a: Option<Access>)
    ensures a.Some? ==> a.value.ByText?
  {
    if !e.Binary? then None
    else match e.op
      case And =>
        var first := FirstText(e.lhs, v);
        if first.Some? then first else FirstText(e.rhs, v)
      case StartsWithOp => TextAccess(e, TestStartsWith, v)
      case EndsWithOp => TextAccess(e, TestEndsWith, v)
      case ContainsOp => TextAccess(e, TestContains, v)
      case _ => None
  }

  function TextAccess(e: Expr, test: TextTest, v: VarId): Option<Access>
    requires e.Binary?
  {
    var key := PropertyAccess(e.lhs, v);
    if key.None? || v in Vars(e.rhs) then None else Some(ByText(key.value, test, e.rhs))
  }

  /** The first spatial test of an AND-tree. */
  function FirstPoint(e: Expr, v: VarId): (a: Option<Access>)
    ensures a.Some? ==> a.value.ByPoint?
  {
    if IsAnd(e) then
      var first := FirstPoint(e.lhs, v);
      if first.Some? then first else FirstPoint(e.rhs, v)
    else if e.Call? then BoxAccess(e, v)
    else if e.Binary? then DistanceAccess(e, v)
    else None
  }

  function BoxAccess(e: Expr, v: VarId): Option<Access>
    requires e.Call?
  {
    if e.fn == WITHIN_BBOX && |e.args| == 3 && PropertyAccess(e.args[0], v).Some?
       && v !in Vars(e.args[1]) && v !in Vars(e.args[2])
    then Some(ByPoint(PropertyAccess(e.args[0], v).value, WithinBox(e.args[1], e.args[2])))
    else None
  }

  /** `distance(v.key, center) <= d`, or `d >= distance(v.key, center)`. */
  function DistanceAccess(e: Expr, v: VarId): Option<Access>
    requires e.Binary?
  {
    if !(e.op.Le? || e.op.Lt? || e.op.Ge? || e.op.Gt?) then None
    else
      var inclusive := e.op.Le? || e.op.Ge?;
      var (call, scalar) := if e.op.Le? || e.op.Lt? then (e.lhs, e.rhs) else (e.rhs, e.lhs);
      if call.Call? && call.fn == DISTANCE && |call.args| == 2
         && PropertyAccess(call.args[0], v).Some?
         && v !in Vars(call.args[1]) && v !in Vars(scalar)
      then Some(ByPoint(PropertyAccess(call.args[0], v).value,
                        WithinDistance(call.args[1], scalar, inclusive)))
      else None
  }

  // ----- seeks by id -----

  predicate IsIdOf(e: Expr, v: VarId, names: set<string>) {
    e.Call? && !e.distinct && e.args == [Variable(v)] && e.fn in names
  }

  function IdEquality(c: Expr, v: VarId, names: set<string>): Option<Expr> {
    if !c.Binary? || !c.op.Eq? then None
    else if IsIdOf(c.lhs, v, names) && v !in Vars(c.rhs) then Some(c.rhs)
    else if IsIdOf(c.rhs, v, names) && v !in Vars(c.lhs) then Some(c.lhs)
    else None
  }

  function IdList(c: Expr, v: VarId, names: set<string>): Option<Expr> {
    if c.Binary? && c.op.In? && IsIdOf(c.lhs, v, names) && v !in Vars(c.rhs) then Some(c.rhs)
    else None
  }

  function FirstIdEquality(cs: seq<Expr>, v: VarId, names: set<string>): Option<Expr> {
    if cs == [] then None
    else if IdEquality(cs[0], v, names).Some? then IdEquality(cs[0], v, names)
    else FirstIdEquality(cs[1..], v, names)
  }

  function FirstIdList(cs: seq<Expr>, v: VarId, names: set<string>): Option<Expr> {
    if cs == [] then None
    else if IdList(cs[0], v, names).Some? then IdList(cs[0], v, names)
    else FirstIdList(cs[1..], v, names)
  }

  /** The first `id(v) = value`, failing that the first `id(v) IN list`. */
  function IdSeek(pred: Expr, v: VarId, names: set<string>): Option<Access> {
    var cs := ConjunctsOf(pred);
    match FirstIdEquality(cs, v, names)
    case Some(value) => Some(ById(value, false))
    case None =>
      match FirstIdList(cs, v, names)
      case Some(list) => Some(ById(list, true))
      case None => None
  }

  // ----- candidates -----

  function Gather(cs: seq<Expr>, v: VarId, find: (Expr, VarId) -> Option<Keyed>): seq<Keyed> {
    if cs == [] then []
    else
      var rest := Gather(cs[1..], v, find);
      match find(cs[0], v) case None => rest case Some(k) => [k] + rest
  }

  /** The first of each key that passes `indexed`. */
  function FirstPerKey(ks: seq<Keyed>, seen: set<string>, indexed: string -> bool): seq<Keyed> {
    if ks == [] then []
    else if ks[0].key in seen || !indexed(ks[0].key) then FirstPerKey(ks[1..], seen, indexed)
    else [ks[0]] + FirstPerKey(ks[1..], seen + {ks[0].key}, indexed)
  }

  function KeysOf(ks: seq<Keyed>): set<string> {
    if ks == [] then {} else {ks[0].key} + KeysOf(ks[1..])
  }

  function Seeks(ks: seq<Keyed>, seek: PropertySeek): seq<Access> {
    if ks == [] then [] else [ByProperty(ks[0].key, ks[0].value, seek)] + Seeks(ks[1..], seek)
  }

  function Indexed(ks: seq<Keyed>, indexed: string -> bool): seq<Keyed> {
    if ks == [] then []
    else
      var rest := Indexed(ks[1..], indexed);
      if indexed(ks[0].key) then [ks[0]] + rest else rest
  }

  function EqualitySeeks(pred: Expr, v: VarId): seq<Access> {
    Seeks(FirstPerKey(Gather(ConjunctsOf(pred), v, EqualityOf), {}, _ => true), SeekEqual)
  }

  function InSeeks(pred: Expr, v: VarId): seq<Access> {
    var seen := KeysOf(Gather(ConjunctsOf(pred), v, EqualityOf));
    Seeks(FirstPerKey(Gather(ConjunctsOf(pred), v, InListOf), seen, _ => true), SeekIn)
  }

  function ElementSeeks(pred: Expr, v: VarId, indexed: string -> bool): seq<Access> {
    Seeks(FirstPerKey(Gather(ConjunctsOf(pred), v, ElementTestOf), {}, indexed), SeekElement)
    + Seeks(Indexed(Gather(ConjunctsOf(pred), v, AnyElementTestOf), indexed), SeekAnyElement)
  }

  /** The two bounds of `x STARTS WITH query`. */
  function PrefixVisits(key: string, query: Expr): seq<Visit> {
    [Visit(key, Lower, query, true),
     Visit(key, Upper, Call(PREFIX_END, false, false, [query]), false)]
  }

  predicate TautologicalText(a: Access) { a.ByText? && a.query == Literal(Text("")) }

  const MIN_INTEGER: int := -0x8000_0000_0000_0000
  const MAX_INTEGER: int := 0x7FFF_FFFF_FFFF_FFFF

  predicate TautologicalRange(b: Bounds) {
    && (b.lo.None? || (!b.loInclusive && b.lo.value == Literal(Int(MIN_INTEGER))))
    && (b.hi.None? || (!b.hiInclusive && b.hi.value == Literal(Int(MAX_INTEGER))))
    && b.extra == []
  }

  /** The ranges of the comparisons and of a prefix: one range when they test
      the same property, else one each. */
  function Ranges(pred: Expr, v: VarId, round: Rounding): seq<Bounds> {
    var range := CollectBounds(pred, v, round);
    var text := FirstText(pred, v);
    if text.None? || !text.value.test.TestStartsWith? || TautologicalText(text.value) then
      if range.None? then [] else [range.value]
    else
      var prefix := PrefixVisits(text.value.key, text.value.query);
      var alone := AddAll(NoBounds(text.value.key), prefix, round);
      if range.None? then [alone]
      else if range.value.key == text.value.key then [AddAll(range.value, prefix, round)]
      else [range.value, alone]
  }

  function RangeSeeks(bs: seq<Bounds>, indexed: string -> bool): seq<Access> {
    if bs == [] then []
    else
      var rest := RangeSeeks(bs[1..], indexed);
      if !TautologicalRange(bs[0]) && indexed(bs[0].key) then [ByRange(bs[0], None, None)] + rest
      else rest
  }

  function TextSeeks(pred: Expr, v: VarId, indexed: string -> bool): seq<Access> {
    match FirstText(pred, v)
    case None => []
    case Some(a) => if !TautologicalText(a) && indexed(a.key) then [a] else []
  }

  /** `whole` tells a box that holds every point. */
  function PointSeeks(pred: Expr, v: VarId, indexed: string -> bool, whole: PointTest -> bool)
    : seq<Access>
  {
    match FirstPoint(pred, v)
    case None => []
    case Some(a) => if !whole(a.point) && indexed(a.key) then [a] else []
  }

  function FirstLabel(labels: Labels): Option<string> {
    if labels == [] || labels[0] == [] then None else Some(labels[0][0])
  }

  function SoleLabel(labels: Labels): Option<string> {
    if labels == [] || |labels[0]| != 1 then None else Some(labels[0][0])
  }

  function IndexedOn(catalog: Catalog, kind: IndexKind, name: Option<string>): string -> bool {
    key => name.Some? && catalog(kind, name.value, key)
  }

  /** Every index access path for a node scan of `v` under `pred`. */
  function NodeCandidates(
    labels: Labels, pred: Expr, v: VarId, catalog: Catalog, round: Rounding, whole: PointTest -> bool)
    : seq<Access>
  {
    var first := FirstLabel(labels);
    EqualitySeeks(pred, v)
    + (if first.Some? then InSeeks(pred, v) else [])
    + ElementSeeks(pred, v, IndexedOn(catalog, RangeIndex, SoleLabel(labels)))
    + RangeSeeks(Ranges(pred, v, round), IndexedOn(catalog, RangeIndex, first))
    + TextSeeks(pred, v, IndexedOn(catalog, TextIndex, first))
    + PointSeeks(pred, v, IndexedOn(catalog, PointIndex, first), whole)
  }

  function OnEvery(catalog: Catalog, kind: IndexKind, types: seq<string>): string -> bool {
    key => types != [] && forall t | t in types :: catalog(kind, t, key)
  }

  /** Every index access path for a relationship `v` under `pred`. */
  function RelCandidates(
    types: seq<string>, pred: Expr, v: VarId, catalog: Catalog, round: Rounding,
    whole: PointTest -> bool)
    : seq<Access>
  {
    var range := CollectBounds(pred, v, round);
    TextSeeks(pred, v, OnEvery(catalog, TextIndex, types))
    + RangeSeeks(if range.None? then [] else [range.value], OnEvery(catalog, RangeIndex, types))
    + ElementSeeks(pred, v, OnEvery(catalog, RangeIndex, types))
    + PointSeeks(pred, v, OnEvery(catalog, PointIndex, types), whole)
  }

  // ====================
  // Every access path finds the entities its predicate holds of, and can be evaluated
  // before the variable is bound.

  // ----- what an access path reads -----

  function BoundsVars(extra: seq<ExtraBound>): set<VarId> {
    if extra == [] then {} else Vars(extra[0].value) + BoundsVars(extra[1..])
  }

  function OptionVars(e: Option<Expr>): set<VarId> { if e.None? then {} else Vars(e.value) }

  function AccessVars(a: Access): set<VarId> {
    match a
    case ById(ids, _) => Vars(ids)
    case ByProperty(_, value, _) => Vars(value)
    case ByRange(b, _, _) => OptionVars(b.lo) + OptionVars(b.hi) + BoundsVars(b.extra)
    case ByText(_, _, query) => Vars(query)
    case ByPoint(_, WithinBox(ll, ur)) => Vars(ll) + Vars(ur)
    case ByPoint(_, WithinDistance(center, d, _)) => Vars(center) + Vars(d)
  }

  lemma {:induction false} TightenStable(
    r: RangeValues, extra: seq<ExtraBound>, v: VarId, value: Value, row: Row, env: Env)
    requires v !in BoundsVars(extra)
    ensures Tighten(r, extra, row[v := value], env) == Tighten(r, extra, row, env)
    decreases |extra|
  {
    if extra != [] {
      UnreadBinding(extra[0].value, row, v, value, env);
      TightenStable(TightenOne(r, extra[0], Eval(extra[0].value, row, env)), extra[1..], v, value, row, env);
    }
  }

  /** Binding a variable the access path does not read changes nothing. */
  lemma AccessStable(
    a: Access, id: nat, props: map<string, Value>, v: VarId, value: Value, row: Row, env: Env)
    requires v !in AccessVars(a)
    ensures AccessFinds(a, id, props, row[v := value], env) == AccessFinds(a, id, props, row, env)
  {
    match a
    case ById(ids, _) => UnreadBinding(ids, row, v, value, env);
    case ByProperty(_, e, _) => UnreadBinding(e, row, v, value, env);
    case ByText(_, _, query) => UnreadBinding(query, row, v, value, env);
    case ByPoint(_, WithinBox(ll, ur)) =>
      UnreadBinding(ll, row, v, value, env);
      UnreadBinding(ur, row, v, value, env);
    case ByPoint(_, WithinDistance(center, d, _)) =>
      UnreadBinding(center, row, v, value, env);
      UnreadBinding(d, row, v, value, env);
    case ByRange(b, _, _) => RangeStable(b, v, value, row, env);
  }

  lemma RangeStable(b: Bounds, v: VarId, value: Value, row: Row, env: Env)
    requires v !in OptionVars(b.lo) + OptionVars(b.hi) + BoundsVars(b.extra)
    ensures RangeOf(b, row[v := value], env) == RangeOf(b, row, env)
  {
    if b.lo.Some? { UnreadBinding(b.lo.value, row, v, value, env); }
    if b.hi.Some? { UnreadBinding(b.hi.value, row, v, value, env); }
    var lo := if b.lo.Some? then Some(Eval(b.lo.value, row, env)) else None;
    var hi := if b.hi.Some? then Some(Eval(b.hi.value, row, env)) else None;
    var hi' := if hi == Some(Null) then None else hi;
    TightenStable(RangeValues(lo, b.loInclusive, hi', b.hiInclusive), b.extra, v, value, row, env);
  }

  // ----- what builtins promise -----

  ghost predicate PrefixEndCalls(env: Env) {
    forall s: string :: env.call(PREFIX_END, [Text(s)])
      == match PrefixEnd(s) case None => Null case Some(end) => Text(end)
  }

  /** The row binds `v` to entity `id`, whose properties are `props`. */
  ghost predicate Binds(row: Row, v: VarId, id: nat, props: map<string, Value>, names: set<string>, env: Env) {
    && v in row
    && (forall key :: PropertyOf(row[v], key, env) == LookupKey(props, key))
    && (forall f | f in names :: env.call(f, [row[v]]) == Int(id))
  }

  lemma PropertyValue(
    e: Expr, v: VarId, row: Row, id: nat, props: map<string, Value>, names: set<string>, env: Env)
    requires Binds(row, v, id, props, names, env) && PropertyAccess(e, v).Some?
    ensures Eval(e, row, env) == LookupKey(props, PropertyAccess(e, v).value)
  {
    assert Eval(e.base, row, env) == row[v];
  }

  // ----- single conjuncts -----

  lemma EqualitySound(
    c: Expr, v: VarId, row: Row, id: nat, props: map<string, Value>, names: set<string>, env: Env)
    requires Binds(row, v, id, props, names, env) && EqualityOf(c, v).Some?
    requires Eval(c, row, env).Truthy()
    ensures var k := EqualityOf(c, v).value;
      v !in Vars(k.value) && PropertySought(Stored(props, k.key), Eval(k.value, row, env), SeekEqual)
  {
    var l, r := PropertyAccess(c.lhs, v), PropertyAccess(c.rhs, v);
    if l.Some? { PropertyValue(c.lhs, v, row, id, props, names, env); }
    if r.Some? { PropertyValue(c.rhs, v, row, id, props, names, env); }
  }

  lemma InListSound(
    c: Expr, v: VarId, row: Row, id: nat, props: map<string, Value>, names: set<string>, env: Env)
    requires Binds(row, v, id, props, names, env) && InListOf(c, v).Some?
    requires Eval(c, row, env).Truthy()
    ensures var k := InListOf(c, v).value;
      v !in Vars(k.value) && PropertySought(Stored(props, k.key), Eval(k.value, row, env), SeekIn)
  {
    PropertyValue(c.lhs, v, row, id, props, names, env);
  }

  lemma {:induction false} SomeHit(pred: Expr, x: VarId, items: seq<Value>, row: Row, env: Env) returns (item: Value)
    requires Hits(pred, x, items, row, env) > 0
    ensures item in items && Eval(pred, row[x := item], env).Truthy()
  {
    if Eval(pred, row[x := items[0]], env).Truthy() {
      item := items[0];
    } else {
      item := SomeHit(pred, x, items[1..], row, env);
    }
  }

  /** An `any` that holds names a list, and an element its test holds of. */
  lemma AnyHolds(x: VarId, list: Expr, pred: Expr, row: Row, env: Env) returns (item: Value)
    requires Eval(ListPredicate(Any, x, list, pred), row, env).Truthy()
    ensures Eval(list, row, env).List? && item in Eval(list, row, env).items
    ensures Eval(pred, row[x := item], env).Truthy()
  {
    item := SomeHit(pred, x, Eval(list, row, env).items, row, env);
  }

  lemma ElementTestSound(
    c: Expr, v: VarId, row: Row, id: nat, props: map<string, Value>, names: set<string>, env: Env)
    requires Binds(row, v, id, props, names, env) && ElementTestOf(c, v).Some?
    requires Eval(c, row, env).Truthy()
    ensures var k := ElementTestOf(c, v).value;
      v !in Vars(k.value) && ListHolds(Stored(props, k.key), Eval(k.value, row, env))
  {
    match c
    case Binary(value, In, rhs) => PropertyValue(rhs, v, row, id, props, names, env);
    case ListPredicate(Any, x, list, Binary(lhs, Eq, rhs)) =>
      PropertyValue(list, v, row, id, props, names, env);
      var pred := Binary(lhs, Eq, rhs);
      var item := AnyHolds(x, list, pred, row, env);
      var value := if lhs == Variable(x) then rhs else lhs;
      UnreadBinding(value, row, x, item, env);
      assert Eval(Variable(x), row[x := item], env) == item;
  }

  lemma {:induction false} ElementValuesSound(
    ds: seq<Expr>, v: VarId, key: string, row: Row, id: nat, props: map<string, Value>,
    names: set<string>, env: Env)
    requires Binds(row, v, id, props, names, env) && ElementValues(ds, v, key).Some?
    requires AnyTrue(ds, row, env)
    ensures v !in VarsAll(ElementValues(ds, v, key).value)
    ensures exists item | item in EvalAll(ElementValues(ds, v, key).value, row, env) ::
      ListHolds(Stored(props, key), item)
  {
    var k := ElementTestOf(ds[0], v).value;
    var rest := ElementValues(ds[1..], v, key).value;
    ElementValuesUnread(ds, v, key);
    assert ([k.value] + rest)[1..] == rest;
    var items := EvalAll([k.value] + rest, row, env);
    assert items == [Eval(k.value, row, env)] + EvalAll(rest, row, env);
    if Eval(ds[0], row, env).Truthy() {
      ElementTestSound(ds[0], v, row, id, props, names, env);
      assert items[0] in items;
    } else {
      var d :| d in ds && Eval(d, row, env).Truthy();
      assert d in ds[1..];
      ElementValuesSound(ds[1..], v, key, row, id, props, names, env);
      var item :| item in EvalAll(rest, row, env) && ListHolds(Stored(props, key), item);
      assert item in items;
    }
  }

  lemma {:induction false} ElementValuesUnread(ds: seq<Expr>, v: VarId, key: string)
    requires ElementValues(ds, v, key).Some?
    ensures v !in VarsAll(ElementValues(ds, v, key).value)
  {
    if ds != [] {
      ElementValuesUnread(ds[1..], v, key);
      var k, rest := ElementTestOf(ds[0], v).value, ElementValues(ds[1..], v, key).value;
      assert ([k.value] + rest)[1..] == rest;
    }
  }

  /** No list predicate of the conjunct rebinds `v`; the analyzer gives each
      its own variable. */
  predicate OwnElement(c: Expr, v: VarId) { c.ListPredicate? ==> c.element != v }

  lemma AnyElementSound(
    c: Expr, v: VarId, row: Row, id: nat, props: map<string, Value>, names: set<string>, env: Env)
    requires Binds(row, v, id, props, names, env) && AnyElementTestOf(c, v).Some?
    requires Eval(c, row, env).Truthy() && OwnElement(c, v)
    ensures var k := AnyElementTestOf(c, v).value;
      v !in Vars(k.value)
      && PropertySought(Stored(props, k.key), Eval(k.value, row, env), SeekAnyElement)
  {
    if IsOr(c) {
      DisjunctsDecide(c, row, env);
      var key := ElementTestOf(DisjunctsOf(c)[0], v).value.key;
      ElementValuesSound(DisjunctsOf(c), v, key, row, id, props, names, env);
    } else {
      var x, list, lhs, rhs := c.element, c.list, c.pred.lhs, c.pred.rhs;
      var item := AnyHolds(x, list, c.pred, row, env);
      var row' := row[x := item];
      assert Eval(lhs, row', env) == item;
      if PropertyAccess(rhs, v).Some? {
        assert Binds(row', v, id, props, names, env);
        PropertyValue(rhs, v, row', id, props, names, env);
      } else {
        PropertyValue(list, v, row, id, props, names, env);
        UnreadBinding(rhs, row, x, item, env);
      }
    }
  }

  // ----- ids -----

  lemma IdValue(
    e: Expr, v: VarId, row: Row, id: nat, props: map<string, Value>, names: set<string>, env: Env)
    requires Binds(row, v, id, props, names, env) && IsIdOf(e, v, names)
    ensures Eval(e, row, env) == Int(id)
  {
    assert e.args[1..] == [];
    assert EvalAll(e.args, row, env) == [row[v]];
  }

  lemma {:induction false} FirstIdEqualityIn(cs: seq<Expr>, v: VarId, names: set<string>) returns (c: Expr)
    requires FirstIdEquality(cs, v, names).Some?
    ensures c in cs && IdEquality(c, v, names) == FirstIdEquality(cs, v, names)
  {
    if IdEquality(cs[0], v, names).Some? { c := cs[0]; } else { c := FirstIdEqualityIn(cs[1..], v, names); }
  }

  lemma {:induction false} FirstIdListIn(cs: seq<Expr>, v: VarId, names: set<string>) returns (c: Expr)
    requires FirstIdList(cs, v, names).Some?
    ensures c in cs && IdList(c, v, names) == FirstIdList(cs, v, names)
  {
    if IdList(cs[0], v, names).Some? { c := cs[0]; } else { c := FirstIdListIn(cs[1..], v, names); }
  }

  /** An id seek finds every entity the predicate holds of. */
  lemma IdSeekSound(
    pred: Expr, v: VarId, row: Row, id: nat, props: map<string, Value>, names: set<string>, env: Env)
    requires Binds(row, v, id, props, names, env) && IdSeek(pred, v, names).Some?
    requires Eval(pred, row, env).Truthy()
    ensures v !in AccessVars(IdSeek(pred, v, names).value)
    ensures AccessFinds(IdSeek(pred, v, names).value, id, props, row, env)
  {
    var cs := ConjunctsOf(pred);
    ConjunctsDecide(pred, row, env);
    if FirstIdEquality(cs, v, names).Some? {
      var c := FirstIdEqualityIn(cs, v, names);
      assert Eval(c, row, env).Truthy();
      IdEqualitySound(c, v, row, id, props, names, env);
    } else {
      var c := FirstIdListIn(cs, v, names);
      assert Eval(c, row, env).Truthy();
      IdListSound(c, v, row, id, props, names, env);
    }
  }

  lemma IdEqualitySound(
    c: Expr, v: VarId, row: Row, id: nat, props: map<string, Value>, names: set<string>, env: Env)
    requires Binds(row, v, id, props, names, env) && IdEquality(c, v, names).Some?
    requires Eval(c, row, env).Truthy()
    ensures v !in Vars(IdEquality(c, v, names).value)
    ensures IdSought(Eval(IdEquality(c, v, names).value, row, env), false, id)
  {
    if IsIdOf(c.lhs, v, names) { IdValue(c.lhs, v, row, id, props, names, env); }
    if IsIdOf(c.rhs, v, names) { IdValue(c.rhs, v, row, id, props, names, env); }
  }

  lemma IdListSound(
    c: Expr, v: VarId, row: Row, id: nat, props: map<string, Value>, names: set<string>, env: Env)
    requires Binds(row, v, id, props, names, env) && IdList(c, v, names).Some?
    requires Eval(c, row, env).Truthy()
    ensures v !in Vars(IdList(c, v, names).value)
    ensures IdSought(Eval(IdList(c, v, names).value, row, env), true, id)
  {
    IdValue(c.lhs, v, row, id, props, names, env);
  }

  // ----- ranges -----

  /** A comparison that holds bounds either side by the other. */
  lemma ComparisonBounds(op: BinaryOp, l: Value, r: Value, env: Env)
    requires SideOf(op).Some? && BinaryValue(op, l, r, env).Truthy()
    ensures var (side, inclusive) := SideOf(op).value;
      !l.Null? && !r.Null?
      && BoundHolds(l, side, r, inclusive) && BoundHolds(r, Flipped(side), l, inclusive)
  {
    CompareBothWays(l, r);
  }

  lemma VisitSound(
    e: Expr, v: VarId, row: Row, id: nat, props: map<string, Value>, names: set<string>, env: Env)
    requires Binds(row, v, id, props, names, env) && VisitOf(e, v) != []
    requires Eval(e, row, env).Truthy()
    ensures var visit := VisitOf(e, v)[0];
      v !in Vars(visit.value) && visit.key in props
      && VisitHolds(LookupKey(props, visit.key), visit, row, env)
  {
    var l, r := Eval(e.lhs, row, env), Eval(e.rhs, row, env);
    assert Eval(e, row, env) == BinaryValue(e.op, l, r, env);
    ComparisonBounds(e.op, l, r, env);
    if PropertyAccess(e.lhs, v).Some? && v !in Vars(e.rhs) {
      PropertyValue(e.lhs, v, row, id, props, names, env);
    } else {
      PropertyValue(e.rhs, v, row, id, props, names, env);
    }
  }

  lemma {:induction false} VisitsSound(
    e: Expr, v: VarId, row: Row, id: nat, props: map<string, Value>, names: set<string>, env: Env)
    requires Binds(row, v, id, props, names, env) && Eval(e, row, env).Truthy()
    ensures forall visit | visit in VisitsOf(e, v) ::
      v !in Vars(visit.value) && visit.key in props
      && VisitHolds(LookupKey(props, visit.key), visit, row, env)
  {
    if IsAnd(e) {
      AndTruthy(Eval(e.lhs, row, env), Eval(e.rhs, row, env));
      VisitsSound(e.lhs, v, row, id, props, names, env);
      VisitsSound(e.rhs, v, row, id, props, names, env);
    } else if VisitOf(e, v) != [] {
      VisitSound(e, v, row, id, props, names, env);
      assert VisitOf(e, v) == [VisitOf(e, v)[0]];
    }
  }

  lemma PrefixEndValue(query: Expr, s: string, row: Row, env: Env)
    requires PrefixEndCalls(env) && Eval(query, row, env) == Text(s)
    ensures var end := Call(PREFIX_END, false, false, [query]);
      Vars(end) == Vars(query)
      && Eval(end, row, env) == match PrefixEnd(s) case None => Null case Some(t) => Text(t)
  {
    var args := [query];
    assert args[1..] == [];
    assert EvalAll(args[1..], row, env) == [] && VarsAll(args[1..]) == {};
    assert EvalAll(args, row, env) == [Text(s)];
  }

  /** A prefix test that holds bounds the property as a range. */
  lemma PrefixSound(
    a: Access, v: VarId, row: Row, id: nat, props: map<string, Value>, env: Env)
    requires a.ByText? && a.test.TestStartsWith? && AccessFinds(a, id, props, row, env)
    requires PrefixEndCalls(env) && v !in Vars(a.query)
    ensures forall visit | visit in PrefixVisits(a.key, a.query) ::
      v !in Vars(visit.value) && visit.key in props
      && VisitHolds(LookupKey(props, visit.key), visit, row, env)
  {
    var x, s, visits := props[a.key].text, Eval(a.query, row, env).text, PrefixVisits(a.key, a.query);
    PrefixEndValue(a.query, s, row, env);
    PrefixBounds(x, s);
    assert VisitHolds(Text(x), visits[0], row, env);
    assert VisitHolds(Text(x), visits[1], row, env);
    assert forall visit :: visit in visits <==> visit == visits[0] || visit == visits[1];
  }

  lemma PrefixBounds(x: string, s: string)
    requires StartsWith(x, s)
    ensures BoundHolds(Text(x), Lower, Text(s), true)
    ensures PrefixEnd(s).Some? ==> BoundHolds(Text(x), Upper, Text(PrefixEnd(s).value), false)
  {
    PrefixIsRange(x, s);
  }

  ghost predicate BoundsUnread(b: Bounds, v: VarId) {
    v !in OptionVars(b.lo) + OptionVars(b.hi) + BoundsVars(b.extra)
  }

  lemma {:induction false} BoundsVarsAppend(extra: seq<ExtraBound>, e: ExtraBound)
    ensures BoundsVars(extra + [e]) == BoundsVars(extra) + Vars(e.value)
  {
    if extra == [] {
      assert extra + [e] == [e];
    } else {
      assert (extra + [e])[1..] == extra[1..] + [e];
      BoundsVarsAppend(extra[1..], e);
    }
  }

  lemma {:induction false} AddAllUnread(b: Bounds, visits: seq<Visit>, round: Rounding, v: VarId)
    requires BoundsUnread(b, v) && forall visit | visit in visits :: v !in Vars(visit.value)
    ensures BoundsUnread(AddAll(b, visits, round), v) && AddAll(b, visits, round).key == b.key
    decreases |visits|
  {
    if visits != [] {
      var w := visits[0];
      BoundsVarsAppend(b.extra, ExtraBound(w.side.Lower?, w.value, w.inclusive));
      AddAllUnread(if w.key == b.key then AddBound(b, w.side, w.value, w.inclusive, round) else b,
                   visits[1..], round, v);
    }
  }

  /** Bounds that hold of the stored value and do not read `v`. */
  ghost predicate BoundsSound(b: Bounds, v: VarId, row: Row, props: map<string, Value>, env: Env) {
    BoundsUnread(b, v) && b.key in props && Describes(b, LookupKey(props, b.key), row, env)
  }

  lemma VisitsBound(
    b: Bounds, visits: seq<Visit>, round: Rounding, v: VarId, row: Row, props: map<string, Value>, env: Env)
    requires BoundsUnread(b, v) && Describes(b, LookupKey(props, b.key), row, env)
    requires forall visit | visit in visits ::
      v !in Vars(visit.value) && visit.key in props
      && VisitHolds(LookupKey(props, visit.key), visit, row, env)
    requires b.key in props
    ensures BoundsSound(AddAll(b, visits, round), v, row, props, env)
  {
    AddAllUnread(b, visits, round, v);
    forall i | 0 <= i < |visits| && visits[i].key == b.key
      ensures VisitHolds(LookupKey(props, b.key), visits[i], row, env)
    {
      assert visits[i] in visits;
    }
    AddAllSafe(b, visits, round, LookupKey(props, b.key), row, env);
  }

  lemma {:induction false} FirstTextSound(
    e: Expr, v: VarId, row: Row, id: nat, props: map<string, Value>, names: set<string>, env: Env)
    requires Binds(row, v, id, props, names, env) && Eval(e, row, env).Truthy()
    requires FirstText(e, v).Some?
    ensures v !in AccessVars(FirstText(e, v).value)
    ensures NotListed(FirstText(e, v).value, props)
      ==> AccessFinds(FirstText(e, v).value, id, props, row, env)
  {
    if IsAnd(e) {
      AndTruthy(Eval(e.lhs, row, env), Eval(e.rhs, row, env));
      if FirstText(e.lhs, v).Some? {
        FirstTextSound(e.lhs, v, row, id, props, names, env);
      } else {
        FirstTextSound(e.rhs, v, row, id, props, names, env);
      }
    } else {
      PropertyValue(e.lhs, v, row, id, props, names, env);
    }
  }

  /** CONTAINS on a list asks for an element, which a text index does not
      find. */
  predicate NotListed(a: Access, props: map<string, Value>) {
    a.ByText? && a.test.TestContains? ==> !LookupKey(props, a.key).List?
  }

  lemma {:induction false} FirstPointSound(
    e: Expr, v: VarId, row: Row, id: nat, props: map<string, Value>, names: set<string>, env: Env)
    requires Binds(row, v, id, props, names, env) && Eval(e, row, env).Truthy()
    requires FirstPoint(e, v).Some?
    ensures v !in AccessVars(FirstPoint(e, v).value)
    ensures AccessFinds(FirstPoint(e, v).value, id, props, row, env)
  {
    if IsAnd(e) {
      AndTruthy(Eval(e.lhs, row, env), Eval(e.rhs, row, env));
      if FirstPoint(e.lhs, v).Some? {
        FirstPointSound(e.lhs, v, row, id, props, names, env);
      } else {
        FirstPointSound(e.rhs, v, row, id, props, names, env);
      }
    } else if e.Call? {
      PropertyValue(e.args[0], v, row, id, props, names, env);
      assert e.args == [e.args[0], e.args[1], e.args[2]];
      EvalThree(e.args[0], e.args[1], e.args[2], row, env);
    } else {
      var (call, scalar) := if e.op.Le? || e.op.Lt? then (e.lhs, e.rhs) else (e.rhs, e.lhs);
      PropertyValue(call.args[0], v, row, id, props, names, env);
      assert call.args == [call.args[0], call.args[1]];
      EvalTwo(call.args[0], call.args[1], row, env);
      CompareBothWays(Eval(scalar, row, env), Eval(call, row, env));
    }
  }

  lemma EvalTwo(a: Expr, b: Expr, row: Row, env: Env)
    ensures EvalAll([a, b], row, env) == [Eval(a, row, env), Eval(b, row, env)]
  {
    assert [a, b][1..] == [b] && [b][1..] == [];
    assert EvalAll([b], row, env) == [Eval(b, row, env)];
  }

  lemma EvalThree(a: Expr, b: Expr, c: Expr, row: Row, env: Env)
    ensures EvalAll([a, b, c], row, env) == [Eval(a, row, env), Eval(b, row, env), Eval(c, row, env)]
  {
    assert [a, b, c][1..] == [b, c];
    EvalTwo(b, c, row, env);
  }

  // ====================
  // Soundness of every candidate an indexed scan may be replaced by.

  // ----- where a candidate comes from -----

  lemma {:induction false} SeeksFrom(ks: seq<Keyed>, seek: PropertySeek, a: Access) returns (k: Keyed)
    requires a in Seeks(ks, seek)
    ensures k in ks && a == ByProperty(k.key, k.value, seek)
  {
    if a == ByProperty(ks[0].key, ks[0].value, seek) { k := ks[0]; } else { k := SeeksFrom(ks[1..], seek, a); }
  }

  lemma {:induction false} FirstPerKeyWithin(ks: seq<Keyed>, seen: set<string>, indexed: string -> bool)
    ensures forall k | k in FirstPerKey(ks, seen, indexed) :: k in ks
  {
    if ks != [] {
      FirstPerKeyWithin(ks[1..], seen, indexed);
      FirstPerKeyWithin(ks[1..], seen + {ks[0].key}, indexed);
    }
  }

  lemma {:induction false} IndexedWithin(ks: seq<Keyed>, indexed: string -> bool)
    ensures forall k | k in Indexed(ks, indexed) :: k in ks
  {
    if ks != [] { IndexedWithin(ks[1..], indexed); }
  }

  lemma {:induction false} GatherFrom(
    cs: seq<Expr>, v: VarId, find: (Expr, VarId) -> Option<Keyed>, k: Keyed) returns (c: Expr)
    requires k in Gather(cs, v, find)
    ensures c in cs && find(c, v) == Some(k)
  {
    if find(cs[0], v) == Some(k) { c := cs[0]; } else { c := GatherFrom(cs[1..], v, find, k); }
  }

  lemma {:induction false} RangeSeeksFrom(bs: seq<Bounds>, indexed: string -> bool, a: Access)
    requires a in RangeSeeks(bs, indexed)
    ensures a.ByRange? && a.bounds in bs && a.order.None? && a.nulls.None?
  {
    if a != ByRange(bs[0], None, None) { RangeSeeksFrom(bs[1..], indexed, a); }
  }

  // ----- what a predicate promises of the entity `v` is bound to -----

  /** The predicate is true of the row, whose `v` is entity `id`. */
  ghost predicate TrueOf(
    pred: Expr, v: VarId, row: Row, id: nat, props: map<string, Value>, names: set<string>, env: Env)
  {
    && Binds(row, v, id, props, names, env) && Eval(pred, row, env).Truthy() && PrefixEndCalls(env)
    && (forall c | c in ConjunctsOf(pred) :: OwnElement(c, v))
  }

  ghost predicate Found(
    a: Access, v: VarId, row: Row, id: nat, props: map<string, Value>, env: Env)
  {
    v !in AccessVars(a) && AccessFinds(a, id, props, row, env)
  }

  lemma PropertySeekSound(
    pred: Expr, a: Access, v: VarId, row: Row, id: nat, props: map<string, Value>,
    names: set<string>, env: Env, indexed: string -> bool)
    requires TrueOf(pred, v, row, id, props, names, env)
    requires a in EqualitySeeks(pred, v) + InSeeks(pred, v) + ElementSeeks(pred, v, indexed)
    ensures Found(a, v, row, id, props, env)
  {
    var cs := ConjunctsOf(pred);
    ConjunctsDecide(pred, row, env);
    if a in EqualitySeeks(pred, v) {
      var ks := Gather(cs, v, EqualityOf);
      var k := SeeksFrom(FirstPerKey(ks, {}, _ => true), SeekEqual, a);
      FirstPerKeyWithin(ks, {}, _ => true);
      var c := GatherFrom(cs, v, EqualityOf, k);
      EqualitySound(c, v, row, id, props, names, env);
    } else if a in InSeeks(pred, v) {
      var ks, seen := Gather(cs, v, InListOf), KeysOf(Gather(cs, v, EqualityOf));
      var k := SeeksFrom(FirstPerKey(ks, seen, _ => true), SeekIn, a);
      FirstPerKeyWithin(ks, seen, _ => true);
      var c := GatherFrom(cs, v, InListOf, k);
      InListSound(c, v, row, id, props, names, env);
    } else {
      ElementSeekSound(pred, a, v, row, id, props, names, env, indexed);
    }
  }

  lemma ElementSeekSound(
    pred: Expr, a: Access, v: VarId, row: Row, id: nat, props: map<string, Value>,
    names: set<string>, env: Env, indexed: string -> bool)
    requires TrueOf(pred, v, row, id, props, names, env)
    requires a in ElementSeeks(pred, v, indexed)
    ensures Found(a, v, row, id, props, env)
  {
    var cs := ConjunctsOf(pred);
    ConjunctsDecide(pred, row, env);
    var tests, anyTests := Gather(cs, v, ElementTestOf), Gather(cs, v, AnyElementTestOf);
    if a in Seeks(FirstPerKey(tests, {}, indexed), SeekElement) {
      var k := SeeksFrom(FirstPerKey(tests, {}, indexed), SeekElement, a);
      FirstPerKeyWithin(tests, {}, indexed);
      var c := GatherFrom(cs, v, ElementTestOf, k);
      ElementTestSound(c, v, row, id, props, names, env);
    } else {
      var k := SeeksFrom(Indexed(anyTests, indexed), SeekAnyElement, a);
      IndexedWithin(anyTests, indexed);
      var c := GatherFrom(cs, v, AnyElementTestOf, k);
      AnyElementSound(c, v, row, id, props, names, env);
    }
  }

  lemma CollectedSound(
    pred: Expr, v: VarId, round: Rounding, row: Row, id: nat, props: map<string, Value>,
    names: set<string>, env: Env)
    requires TrueOf(pred, v, row, id, props, names, env) && CollectBounds(pred, v, round).Some?
    ensures BoundsSound(CollectBounds(pred, v, round).value, v, row, props, env)
  {
    var visits := VisitsOf(pred, v);
    VisitsSound(pred, v, row, id, props, names, env);
    assert visits[0] in visits;
    VisitsBound(NoBounds(visits[0].key), visits, round, v, row, props, env);
  }

  /** A STARTS WITH among the conjuncts adds its two bounds soundly. */
  lemma PrefixBound(
    pred: Expr, v: VarId, b: Bounds, round: Rounding, row: Row, id: nat, props: map<string, Value>,
    names: set<string>, env: Env)
    requires TrueOf(pred, v, row, id, props, names, env)
    requires FirstText(pred, v).Some? && FirstText(pred, v).value.test.TestStartsWith?
    requires b == NoBounds(FirstText(pred, v).value.key) || BoundsSound(b, v, row, props, env)
    ensures var text := FirstText(pred, v).value;
      BoundsSound(AddAll(b, PrefixVisits(text.key, text.query), round), v, row, props, env)
  {
    var text := FirstText(pred, v).value;
    FirstTextSound(pred, v, row, id, props, names, env);
    PrefixSound(text, v, row, id, props, env);
    var prefix := PrefixVisits(text.key, text.query);
    assert prefix[0] in prefix;
    VisitsBound(b, prefix, round, v, row, props, env);
  }

  lemma RangesSound(
    pred: Expr, v: VarId, round: Rounding, row: Row, id: nat, props: map<string, Value>,
    names: set<string>, env: Env)
    requires TrueOf(pred, v, row, id, props, names, env)
    ensures forall b | b in Ranges(pred, v, round) :: BoundsSound(b, v, row, props, env)
  {
    var range, text := CollectBounds(pred, v, round), FirstText(pred, v);
    if range.Some? { CollectedSound(pred, v, round, row, id, props, names, env); }
    if text.Some? && text.value.test.TestStartsWith? {
      PrefixBound(pred, v, NoBounds(text.value.key), round, row, id, props, names, env);
      if range.Some? { PrefixBound(pred, v, range.value, round, row, id, props, names, env); }
    }
  }

  lemma RangeSeekSound(
    bs: seq<Bounds>, a: Access, v: VarId, row: Row, id: nat, props: map<string, Value>, env: Env,
    indexed: string -> bool)
    requires forall b | b in bs :: BoundsSound(b, v, row, props, env)
    requires a in RangeSeeks(bs, indexed)
    ensures Found(a, v, row, id, props, env)
  {
    RangeSeeksFrom(bs, indexed, a);
    DescribedInRange(a.bounds, LookupKey(props, a.bounds.key), row, env);
  }

  /** Every candidate for a node scan: where the predicate is true, the
      access path finds the node, without reading its variable. */
  lemma NodeCandidateSound(
    labels: Labels, pred: Expr, v: VarId, catalog: Catalog, round: Rounding,
    whole: PointTest -> bool, a: Access,
    row: Row, id: nat, props: map<string, Value>, names: set<string>, env: Env)
    requires TrueOf(pred, v, row, id, props, names, env) && NotListed(a, props)
    requires a in NodeCandidates(labels, pred, v, catalog, round, whole)
    ensures Found(a, v, row, id, props, env)
  {
    var ranges := RangeSeeks(Ranges(pred, v, round), IndexedOn(catalog, RangeIndex, FirstLabel(labels)));
    var elements := ElementSeeks(pred, v, IndexedOn(catalog, RangeIndex, SoleLabel(labels)));
    if a in EqualitySeeks(pred, v) + InSeeks(pred, v) + elements {
      PropertySeekSound(pred, a, v, row, id, props, names, env,
                        IndexedOn(catalog, RangeIndex, SoleLabel(labels)));
    } else if a in ranges {
      RangesSound(pred, v, round, row, id, props, names, env);
      RangeSeekSound(Ranges(pred, v, round), a, v, row, id, props, env,
                     IndexedOn(catalog, RangeIndex, FirstLabel(labels)));
    } else if FirstText(pred, v) == Some(a) {
      FirstTextSound(pred, v, row, id, props, names, env);
    } else {
      FirstPointSound(pred, v, row, id, props, names, env);
    }
  }

  /** Every candidate for a relationship, likewise. */
  lemma RelCandidateSound(
    types: seq<string>, pred: Expr, v: VarId, catalog: Catalog, round: Rounding,
    whole: PointTest -> bool, a: Access,
    row: Row, id: nat, props: map<string, Value>, names: set<string>, env: Env)
    requires TrueOf(pred, v, row, id, props, names, env) && NotListed(a, props)
    requires a in RelCandidates(types, pred, v, catalog, round, whole)
    ensures Found(a, v, row, id, props, env)
  {
    var range := CollectBounds(pred, v, round);
    var bs := if range.None? then [] else [range.value];
    if a in ElementSeeks(pred, v, OnEvery(catalog, RangeIndex, types)) {
      PropertySeekSound(pred, a, v, row, id, props, names, env, OnEvery(catalog, RangeIndex, types));
    } else if a in RangeSeeks(bs, OnEvery(catalog, RangeIndex, types)) {
      if range.Some? { CollectedSound(pred, v, round, row, id, props, names, env); }
      RangeSeekSound(bs, a, v, row, id, props, env, OnEvery(catalog, RangeIndex, types));
    } else if FirstText(pred, v) == Some(a) {
      FirstTextSound(pred, v, row, id, props, names, env);
    } else {
      FirstPointSound(pred, v, row, id, props, names, env);
    }
  }

  // ----- text on lists -----

  /** The text index finds what the test is true of exactly when CONTAINS is
      not asked of a stored list that holds the value. */
  lemma ContainsIff(key: string, test: TextTest, query: Expr, id: nat, props: map<string, Value>, row: Row, env: Env)
    ensures
      var stored, wanted := LookupKey(props, key), Eval(query, row, env);
      (Text3(test, stored, wanted).Truthy() ==> AccessFinds(ByText(key, test, query), id, props, row, env))
      <==> !(test.TestContains? && stored.List? && !wanted.Null? && wanted in stored.items)
  {}
}
