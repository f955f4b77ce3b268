/** Collecting range bounds on one property from an AND-tree. */
module RangeBounds {
  import opened Values
  import opened Expressions
  import opened Conjuncts
  import opened Logical

  datatype Side = Lower | Upper

  /** One comparison of the property with a value. */
  datatype Visit = Visit(key: string, side: Side, value: Expr, inclusive: bool)

  /** How integers convert to the floats literals are ordered by. */
  type Rounding = int -> int

  function LiteralNumber(e: Expr, round: Rounding): Option<int> {
    if e.Literal? && e.value.Int? then Some(round(e.value.number))
    else if e.Unary? && !e.uop.Not? then
      var of := LiteralNumber(e.arg, round);
      if e.uop.Pos? || of.None? then of else Some(-of.value)
    else None
  }

  /** `None` when the plan cannot order the two bounds. */
  function CompareLiterals(a: Expr, b: Expr, round: Rounding): Option<Ordering> {
    var m, n := LiteralNumber(a, round), LiteralNumber(b, round);
    if m.Some? && n.Some? then Some(CompareInts(m.value, n.value))
    else if m.None? && n.None? && a.Literal? && a.value.Text? && b.Literal? && b.value.Text?
    then Some(CompareText(a.value.text, b.value.text))
    else None
  }

  predicate Tighter(side: Side, order: Ordering, inclusive: bool, currentInclusive: bool) {
    match order
    case Equal => !inclusive && currentInclusive
    case Greater => side.Lower?
    case Less => side.Upper?
  }

  function BoundOn(b: Bounds, side: Side): Option<Expr> { if side.Lower? then b.lo else b.hi }

  function InclusiveOn(b: Bounds, side: Side): bool {
    if side.Lower? then b.loInclusive else b.hiInclusive
  }

  /** Intersect one more bound: the tighter of two literals, else both. */
  function AddBound(b: Bounds, side: Side, value: Expr, inclusive: bool, round: Rounding): Bounds {
    var current := BoundOn(b, side);
    if current.None? then Replace(b, side, value, inclusive)
    else match CompareLiterals(value, current.value, round)
      case None => b.(extra := b.extra + [ExtraBound(side.Lower?, value, inclusive)])
      case Some(order) =>
        if Tighter(side, order, inclusive, InclusiveOn(b, side)) then Replace(b, side, value, inclusive)
        else b
  }

  function Replace(b: Bounds, side: Side, value: Expr, inclusive: bool): Bounds {
    if side.Lower? then b.(lo := Some(value), loInclusive := inclusive)
    else b.(hi := Some(value), hiInclusive := inclusive)
  }

  function NoBounds(key: string): Bounds { Bounds(key, None, false, None, false, []) }

  function AddAll(b: Bounds, visits: seq<Visit>, round: Rounding): Bounds
    decreases |visits|
  {
    if visits == [] then b
    else
      var v := visits[0];
      AddAll(if v.key == b.key then AddBound(b, v.side, v.value, v.inclusive, round) else b,
             visits[1..], round)
  }

  /** The bounds being collected, updated in place. */
  class Collector {
    var key: string
    var lo: Option<Expr>
    var loInclusive: bool
    var hi: Option<Expr>
    var hiInclusive: bool
    var extra: seq<ExtraBound>

    function Collected(): Bounds
      reads this
    {
      Bounds(key, lo, loInclusive, hi, hiInclusive, extra)
    }

    constructor (key: string)
      ensures Collected() == NoBounds(key)
    {
      this.key := key;
      lo, loInclusive, hi, hiInclusive, extra := None, false, None, false, [];
    }

    method Add(side: Side, value: Expr, inclusive: bool, round: Rounding)
      modifies this
      ensures Collected() == AddBound(old(Collected()), side, value, inclusive, round)
    {
      var current := if side.Lower? then lo else hi;
      var currentInclusive := if side.Lower? then loInclusive else hiInclusive;
      if current.Some? {
        match CompareLiterals(value, current.value, round) {
          case None =>
            extra := extra + [ExtraBound(side.Lower?, value, inclusive)];
            return;
          case Some(order) =>
            if !Tighter(side, order, inclusive, currentInclusive) { return; }
        }
      }
      if side.Lower? {
        lo, loInclusive := Some(value), inclusive;
      } else {
        hi, hiInclusive := Some(value), inclusive;
      }
    }
  }

  // ----- walking the predicate -----

  /** `v.key`, when that is what `e` is. */
  function PropertyAccess(e: Expr, v: VarId): Option<string> {
    if e.Property? && e.base == Variable(v) then Some(e.key) else None
  }

  function SideOf(op: BinaryOp): Option<(Side, bool)> {
    match op
    case Gt => Some((Lower, false))
    case Ge => Some((Lower, true))
    case Lt => Some((Upper, false))
    case Le => Some((Upper, true))
    case _ => None
  }

  function Flipped(side: Side): Side { if side.Lower? then Upper else Lower }

  /** A comparison of a property of `v` with a value that does not read `v`,
      written either way round. */
  function VisitOf(e: Expr, v: VarId): seq<Visit> {
    if !e.Binary? || SideOf(e.op).None? then []
    else
      var (side, inclusive) := SideOf(e.op).value;
      var left, right := PropertyAccess(e.lhs, v), PropertyAccess(e.rhs, v);
      if left.Some? && v !in Vars(e.rhs) then [Visit(left.value, side, e.rhs, inclusive)]
      else if right.Some? && v !in Vars(e.lhs)
      then [Visit(right.value, Flipped(side), e.lhs, inclusive)]
      else []
  }

  function VisitsOf(e: Expr, v: VarId): seq<Visit> {
    if IsAnd(e) then VisitsOf(e.lhs, v) + VisitsOf(e.rhs, v) else VisitOf(e, v)
  }

  /** The bounds on the first property compared. */
  function CollectBounds(e: Expr, v: VarId, round: Rounding): Option<Bounds> {
    var visits := VisitsOf(e, v);
    if visits == [] then None else Some(AddAll(NoBounds(visits[0].key), visits, round))
  }

  /** Collects the bounds as the walk meets the comparisons. */
  method Collect(e: Expr, v: VarId, round: Rounding) returns (bounds: Option<Bounds>)
    ensures bounds == CollectBounds(e, v, round)
  {
    var visits := VisitsOf(e, v);
    if visits == [] { return None; }
    var c := new Collector(visits[0].key);
    var i := 0;
    while i < |visits|
      invariant 0 <= i <= |visits|
      invariant c.key == visits[0].key
      invariant AddAll(c.Collected(), visits[i..], round) == AddAll(NoBounds(visits[0].key), visits, round)
    {
      assert visits[i..][1..] == visits[i + 1..];
      if visits[i].key == c.key {
        c.Add(visits[i].side, visits[i].value, visits[i].inclusive, round);
      }
      i := i + 1;
    }
    bounds := Some(c.Collected());
  }

  // ----- meaning -----

  /** `x` satisfies the bound; a null upper bound asks nothing. */
  predicate BoundHolds(x: Value, side: Side, value: Value, inclusive: bool) {
    if side.Lower? then LowerHolds(x, Some(value), inclusive)
    else value.Null? || UpperHolds(x, Some(value), inclusive)
  }

  predicate VisitHolds(x: Value, visit: Visit, row: Row, env: Env) {
    BoundHolds(x, visit.side, Eval(visit.value, row, env), visit.inclusive)
  }

  /** Every visited comparison with the property holds of `x`. */
  predicate AllHold(x: Value, key: string, visits: seq<Visit>, row: Row, env: Env) {
    forall i | 0 <= i < |visits| && visits[i].key == key :: VisitHolds(x, visits[i], row, env)
  }

  /** `x` satisfies every bound listed. */
  predicate Describes(b: Bounds, x: Value, row: Row, env: Env) {
    SideHolds(b, Lower, x, row, env) && SideHolds(b, Upper, x, row, env) && ExtrasHold(b.extra, x, row, env)
  }

  predicate SideHolds(b: Bounds, side: Side, x: Value, row: Row, env: Env) {
    BoundOn(b, side).Some? ==>
      BoundHolds(x, side, Eval(BoundOn(b, side).value, row, env), InclusiveOn(b, side))
  }

  predicate ExtrasHold(extra: seq<ExtraBound>, x: Value, row: Row, env: Env) {
    forall e | e in extra :: ExtraHolds(x, e, row, env)
  }

  predicate ExtraHolds(x: Value, e: ExtraBound, row: Row, env: Env) {
    BoundHolds(x, if e.lower then Lower else Upper, Eval(e.value, row, env), e.inclusive)
  }

  lemma ReplaceHolds(b: Bounds, side: Side, value: Expr, inclusive: bool, x: Value, row: Row, env: Env)
    ensures Describes(Replace(b, side, value, inclusive), x, row, env)
        <==> SideHolds(b, Flipped(side), x, row, env) && ExtrasHold(b.extra, x, row, env)
             && BoundHolds(x, side, Eval(value, row, env), inclusive)
  {
    var c := Replace(b, side, value, inclusive);
    assert SideHolds(c, side, x, row, env) <==> BoundHolds(x, side, Eval(value, row, env), inclusive);
    assert SideHolds(c, Flipped(side), x, row, env) <==> SideHolds(b, Flipped(side), x, row, env);
  }

  lemma ExtraGrows(b: Bounds, e: ExtraBound, x: Value, row: Row, env: Env)
    ensures Describes(b.(extra := b.extra + [e]), x, row, env)
        <==> Describes(b, x, row, env) && ExtraHolds(x, e, row, env)
  {
    var c := b.(extra := b.extra + [e]);
    assert forall o :: o in c.extra <==> o in b.extra || o == e;
    assert SideHolds(c, Lower, x, row, env) == SideHolds(b, Lower, x, row, env);
    assert SideHolds(c, Upper, x, row, env) == SideHolds(b, Upper, x, row, env);
  }

  lemma AddBoundSafe(b: Bounds, side: Side, value: Expr, inclusive: bool, round: Rounding,
                     x: Value, row: Row, env: Env)
    requires Describes(b, x, row, env)
    requires BoundHolds(x, side, Eval(value, row, env), inclusive)
    ensures Describes(AddBound(b, side, value, inclusive, round), x, row, env)
  {
    ReplaceHolds(b, side, value, inclusive, x, row, env);
    ExtraGrows(b, ExtraBound(side.Lower?, value, inclusive), x, row, env);
  }

  lemma {:induction false} AddAllSafe(
    b: Bounds, visits: seq<Visit>, round: Rounding, x: Value, row: Row, env: Env)
    requires Describes(b, x, row, env) && AllHold(x, b.key, visits, row, env)
    ensures Describes(AddAll(b, visits, round), x, row, env)
    decreases |visits|
  {
    if visits != [] {
      var v := visits[0];
      if v.key == b.key {
        assert VisitHolds(x, v, row, env);
        AddBoundSafe(b, v.side, v.value, v.inclusive, round, x, row, env);
        AddAllSafe(AddBound(b, v.side, v.value, v.inclusive, round), visits[1..], round, x, row, env);
      } else {
        AddAllSafe(b, visits[1..], round, x, row, env);
      }
    }
  }

  lemma {:induction false} TightenSafe(
    r: RangeValues, extra: seq<ExtraBound>, x: Value, row: Row, env: Env)
    requires RangeHolds(x, r)
    requires ExtrasHold(extra, x, row, env)
    ensures RangeHolds(x, Tighten(r, extra, row, env))
    decreases |extra|
  {
    if extra != [] {
      assert ExtraHolds(x, extra[0], row, env);
      TightenSafe(TightenOne(r, extra[0], Eval(extra[0].value, row, env)), extra[1..], x, row, env);
    }
  }

  lemma DescribedInRange(b: Bounds, x: Value, row: Row, env: Env)
    requires Describes(b, x, row, env)
    ensures RangeHolds(x, RangeOf(b, row, env))
  {
    var lo := if b.lo.Some? then Some(Eval(b.lo.value, row, env)) else None;
    var hi := if b.hi.Some? then Some(Eval(b.hi.value, row, env)) else None;
    var hi' := if hi == Some(Null) then None else hi;
    TightenSafe(RangeValues(lo, b.loInclusive, hi', b.hiInclusive), b.extra, x, row, env);
  }

  /** The collected range contains every value that satisfies the visited
      comparisons, however literals round and in whatever order they come. */
  lemma RangeIsSafe(key: string, visits: seq<Visit>, round: Rounding, x: Value, row: Row, env: Env)
    requires AllHold(x, key, visits, row, env)
    ensures RangeHolds(x, RangeOf(AddAll(NoBounds(key), visits, round), row, env))
  {
    AddAllSafe(NoBounds(key), visits, round, x, row, env);
    DescribedInRange(AddAll(NoBounds(key), visits, round), x, row, env);
  }

  // ----- tightness -----

  predicate SameKind(a: Value, b: Value) { (a.Int? && b.Int?) || (a.Text? && b.Text?) }

  lemma {:induction false} TextEqual(a: string, b: string)
    ensures CompareText(a, b).Equal? <==> a == b
  {
    if a != "" && b != "" && a[0] == b[0] {
      TextEqual(a[1..], b[1..]);
      assert a == [a[0]] + a[1..] && b == [b[0]] + b[1..];
    }
  }

  lemma {:induction false} TextTransitive(a: string, b: string, c: string)
    requires CompareText(a, b).Less? && CompareText(b, c).Less?
    ensures CompareText(a, c).Less?
  {
    if a != "" && b != "" && c != "" && a[0] == b[0] == c[0] { TextTransitive(a[1..], b[1..], c[1..]); }
  }

  lemma {:induction false} TextFlips(a: string, b: string)
    ensures CompareText(b, a) == Flip(CompareText(a, b))
  {
    if a != "" && b != "" && a[0] == b[0] { TextFlips(a[1..], b[1..]); }
  }

  function Flip(o: Ordering): Ordering {
    match o
    case Less => Greater
    case Equal => Equal
    case Greater => Less
  }

  /** The tighter of two bounds implies the other. */
  lemma TighterImplies(x: Value, side: Side, a: Value, aInclusive: bool, b: Value, bInclusive: bool)
    requires SameKind(x, a) && SameKind(x, b)
    requires Compare(a, b) == Some(if side.Lower? then Greater else Less)
      || (Compare(a, b) == Some(Equal) && (bInclusive || !aInclusive))
    requires BoundHolds(x, side, a, aInclusive)
    ensures BoundHolds(x, side, b, bInclusive)
  {
    if x.Text? {
      TextFlips(x.text, a.text);
      TextFlips(x.text, b.text);
      TextFlips(a.text, b.text);
      TextEqual(x.text, a.text);
      TextEqual(a.text, b.text);
      if CompareText(b.text, a.text).Less? && CompareText(a.text, x.text).Less? {
        TextTransitive(b.text, a.text, x.text);
      }
      if CompareText(a.text, b.text).Less? && CompareText(x.text, a.text).Less? {
        TextTransitive(x.text, a.text, b.text);
      }
    }
  }

  /** Literal numbers in `e` convert exactly. */
  predicate Exact(e: Expr, round: Rounding) {
    if e.Literal? && e.value.Int? then round(e.value.number) == e.value.number
    else e.Unary? && !e.uop.Not? ==> Exact(e.arg, round)
  }

  lemma {:induction false} ExactValue(e: Expr, round: Rounding, row: Row, env: Env)
    requires Exact(e, round) && LiteralNumber(e, round).Some?
    ensures Eval(e, row, env) == Int(LiteralNumber(e, round).value)
  {
    if e.Unary? { ExactValue(e.arg, round, row, env); }
  }

  lemma LiteralsCompare(a: Expr, b: Expr, round: Rounding, row: Row, env: Env)
    requires Exact(a, round) && Exact(b, round) && CompareLiterals(a, b, round).Some?
    ensures Compare(Eval(a, row, env), Eval(b, row, env)) == CompareLiterals(a, b, round)
  {
    if LiteralNumber(a, round).Some? {
      ExactValue(a, round, row, env);
      ExactValue(b, round, row, env);
    }
  }

  /** Every bound has an exact literal or none, and a value of `x`'s kind. */
  ghost predicate BoundsFit(b: Bounds, round: Rounding, x: Value, row: Row, env: Env) {
    && (b.lo.Some? ==> ValueFits(b.lo.value, round, x, row, env))
    && (b.hi.Some? ==> ValueFits(b.hi.value, round, x, row, env))
    && (forall e | e in b.extra :: ValueFits(e.value, round, x, row, env))
  }

  predicate ValueFits(e: Expr, round: Rounding, x: Value, row: Row, env: Env) {
    Exact(e, round) && SameKind(x, Eval(e, row, env))
  }

  lemma AddBoundFits(b: Bounds, side: Side, value: Expr, inclusive: bool, round: Rounding,
                     x: Value, row: Row, env: Env)
    requires BoundsFit(b, round, x, row, env) && ValueFits(value, round, x, row, env)
    ensures BoundsFit(AddBound(b, side, value, inclusive, round), round, x, row, env)
  {}

  lemma AddBoundTight(b: Bounds, side: Side, value: Expr, inclusive: bool, round: Rounding,
                      x: Value, row: Row, env: Env)
    requires BoundsFit(b, round, x, row, env) && ValueFits(value, round, x, row, env)
    requires Describes(AddBound(b, side, value, inclusive, round), x, row, env)
    ensures Describes(b, x, row, env) && BoundHolds(x, side, Eval(value, row, env), inclusive)
  {
    var current := BoundOn(b, side);
    ReplaceHolds(b, side, value, inclusive, x, row, env);
    ExtraGrows(b, ExtraBound(side.Lower?, value, inclusive), x, row, env);
    if current.Some? {
      match CompareLiterals(value, current.value, round)
      case None =>
      case Some(order) => LiteralsDecide(b, side, value, inclusive, order, round, x, row, env);
    }
  }

  lemma LiteralsDecide(b: Bounds, side: Side, value: Expr, inclusive: bool, order: Ordering,
                       round: Rounding, x: Value, row: Row, env: Env)
    requires ValueFits(value, round, x, row, env)
    requires BoundOn(b, side).Some? && ValueFits(BoundOn(b, side).value, round, x, row, env)
    requires CompareLiterals(value, BoundOn(b, side).value, round) == Some(order)
    ensures if Tighter(side, order, inclusive, InclusiveOn(b, side))
      then BoundHolds(x, side, Eval(value, row, env), inclusive) ==> SideHolds(b, side, x, row, env)
      else SideHolds(b, side, x, row, env) ==> BoundHolds(x, side, Eval(value, row, env), inclusive)
  {
    var current := BoundOn(b, side).value;
    LiteralsCompare(value, current, round, row, env);
    var new', old' := Eval(value, row, env), Eval(current, row, env);
    CompareFlips(new', old');
    if Tighter(side, order, inclusive, InclusiveOn(b, side)) {
      if BoundHolds(x, side, new', inclusive) {
        TighterImplies(x, side, new', inclusive, old', InclusiveOn(b, side));
      }
    } else if SideHolds(b, side, x, row, env) {
      TighterImplies(x, side, old', InclusiveOn(b, side), new', inclusive);
    }
  }

  lemma CompareFlips(a: Value, b: Value)
    requires SameKind(a, b)
    ensures Compare(b, a) == Some(Flip(Compare(a, b).value))
  {
    if a.Text? { TextFlips(a.text, b.text); }
  }

  lemma AddVisitTight(b: Bounds, v: Visit, round: Rounding, x: Value, row: Row, env: Env) returns (next: Bounds)
    requires BoundsFit(b, round, x, row, env) && ValueFits(v.value, round, x, row, env)
    ensures next == if v.key == b.key then AddBound(b, v.side, v.value, v.inclusive, round) else b
    ensures next.key == b.key && BoundsFit(next, round, x, row, env)
    ensures Describes(next, x, row, env) ==>
      Describes(b, x, row, env) && (v.key == b.key ==> VisitHolds(x, v, row, env))
  {
    next := b;
    if v.key == b.key {
      next := AddBound(b, v.side, v.value, v.inclusive, round);
      AddBoundFits(b, v.side, v.value, v.inclusive, round, x, row, env);
      if Describes(next, x, row, env) { AddBoundTight(b, v.side, v.value, v.inclusive, round, x, row, env); }
    }
  }

  lemma AllHoldFirst(x: Value, key: string, visits: seq<Visit>, row: Row, env: Env)
    requires visits != [] && AllHold(x, key, visits[1..], row, env)
    requires visits[0].key == key ==> VisitHolds(x, visits[0], row, env)
    ensures AllHold(x, key, visits, row, env)
  {
    forall i | 0 <= i < |visits| && visits[i].key == key ensures VisitHolds(x, visits[i], row, env) {
      if i > 0 { assert VisitHolds(x, visits[1..][i - 1], row, env); }
    }
  }

  lemma {:induction false} AddAllTight(
    b: Bounds, visits: seq<Visit>, round: Rounding, x: Value, row: Row, env: Env)
    requires BoundsFit(b, round, x, row, env)
    requires forall i | 0 <= i < |visits| :: ValueFits(visits[i].value, round, x, row, env)
    ensures var c := AddAll(b, visits, round);
      BoundsFit(c, round, x, row, env)
      && (Describes(c, x, row, env) ==> Describes(b, x, row, env) && AllHold(x, b.key, visits, row, env))
    decreases |visits|
  {
    if visits != [] {
      assert ValueFits(visits[0].value, round, x, row, env);
      var next := AddVisitTight(b, visits[0], round, x, row, env);
      AddAllTight(next, visits[1..], round, x, row, env);
      if Describes(AddAll(b, visits, round), x, row, env) { AllHoldFirst(x, b.key, visits, row, env); }
    }
  }

  /** One extra bound, evaluated, narrows the range to its intersection. */
  lemma TightenOneTight(r: RangeValues, e: ExtraBound, value: Value, x: Value)
    requires r.lo.Some? ==> SameKind(x, r.lo.value)
    requires r.hi.Some? ==> SameKind(x, r.hi.value)
    requires SameKind(x, value)
    requires RangeHolds(x, TightenOne(r, e, value))
    ensures RangeHolds(x, r)
    ensures BoundHolds(x, if e.lower then Lower else Upper, value, e.inclusive)
  {
    var side := if e.lower then Lower else Upper;
    var current := if e.lower then r.lo else r.hi;
    var currentInclusive := if e.lower then r.loInclusive else r.hiInclusive;
    if current.Some? {
      CompareFlips(value, current.value);
      if Takes(current, currentInclusive, value, e.inclusive, if e.lower then Greater else Less) {
        TighterImplies(x, side, value, e.inclusive, current.value, currentInclusive);
      } else {
        TighterImplies(x, side, current.value, currentInclusive, value, e.inclusive);
      }
    }
  }

  lemma {:induction false} TightenTight(
    r: RangeValues, extra: seq<ExtraBound>, round: Rounding, x: Value, row: Row, env: Env)
    requires r.lo.Some? ==> SameKind(x, r.lo.value)
    requires r.hi.Some? ==> SameKind(x, r.hi.value)
    requires forall e | e in extra :: ValueFits(e.value, round, x, row, env)
    requires RangeHolds(x, Tighten(r, extra, row, env))
    ensures RangeHolds(x, r) && ExtrasHold(extra, x, row, env)
    decreases |extra|
  {
    if extra != [] {
      var e, value := extra[0], Eval(extra[0].value, row, env);
      assert ValueFits(e.value, round, x, row, env);
      var next := TightenOne(r, e, value);
      TightenTight(next, extra[1..], round, x, row, env);
      TightenOneTight(r, e, value, x);
      assert forall o :: o in extra <==> o == e || o in extra[1..];
    }
  }

  /** When integer literals convert exactly and every bound has a value of
      `x`'s kind, the collected range is the intersection of the visited
      comparisons and nothing more. */
  lemma RangeIsTight(key: string, visits: seq<Visit>, round: Rounding, x: Value, row: Row, env: Env)
    requires forall i | 0 <= i < |visits| :: ValueFits(visits[i].value, round, x, row, env)
    ensures RangeHolds(x, RangeOf(AddAll(NoBounds(key), visits, round), row, env))
        <==> AllHold(x, key, visits, row, env)
  {
    var b := AddAll(NoBounds(key), visits, round);
    AddAllTight(NoBounds(key), visits, round, x, row, env);
    if AllHold(x, key, visits, row, env) { RangeIsSafe(key, visits, round, x, row, env); }
    if RangeHolds(x, RangeOf(b, row, env)) {
      var lo := if b.lo.Some? then Some(Eval(b.lo.value, row, env)) else None;
      var hi := if b.hi.Some? then Some(Eval(b.hi.value, row, env)) else None;
      TightenTight(RangeValues(lo, b.loInclusive, hi, b.hiInclusive), b.extra, round, x, row, env);
    }
  }

  // ====================
  // STARTS WITH as a range: the text order, and `string.prefix_end`.

  /** The next Unicode scalar value, if there is one. */
  function NextChar(c: char): Option<char> {
    if c == '\U{10FFFF}' then None
    else if c == '\U{D7FF}' then Some('\U{E000}')
    else Some((c as int + 1) as char)
  }

  /** The smallest text above every text that starts with `s`: its last
      character that has a successor, raised, and nothing after it. */
  function PrefixEnd(s: string): Option<string> {
    if s == "" then None
    else match NextChar(s[|s| - 1])
      case Some(c) => Some(s[..|s| - 1] + [c])
      case None => PrefixEnd(s[..|s| - 1])
  }

  /** The same, from the front. */
  function EndFromFront(s: string): Option<string> {
    if s == "" then None
    else match EndFromFront(s[1..])
      case Some(end) => Some([s[0]] + end)
      case None => match NextChar(s[0]) case Some(c) => Some([c]) case None => None
  }

  lemma OneCharEnd(c: char)
    ensures PrefixEnd([c]) == match NextChar(c) case Some(d) => Some([d]) case None => None
  {
    assert [c][..0] == "";
    match NextChar(c)
    case Some(d) => assert "" + [d] == [d];
    case None => assert PrefixEnd("") == None;
  }

  lemma {:induction false} EndPrepends(c: char, s: string)
    requires s != ""
    ensures PrefixEnd([c] + s) ==
      match PrefixEnd(s)
      case Some(end) => Some([c] + end)
      case None => match NextChar(c) case Some(d) => Some([d]) case None => None
  {
    var t, init := [c] + s, s[..|s| - 1];
    assert t[..|t| - 1] == [c] + init && t[|t| - 1] == s[|s| - 1];
    match NextChar(s[|s| - 1])
    case Some(d) => assert [c] + init + [d] == [c] + (init + [d]);
    case None =>
      if init == "" {
        assert [c] + init == [c];
        OneCharEnd(c);
        OneCharEnd(s[0]);
        assert s == [s[0]];
      } else {
        EndPrepends(c, init);
      }
  }

  lemma {:induction false} SameEnd(s: string)
    ensures EndFromFront(s) == PrefixEnd(s)
  {
    if s != "" {
      SameEnd(s[1..]);
      assert s == [s[0]] + s[1..];
      if s[1..] != "" { EndPrepends(s[0], s[1..]); } else { OneCharEnd(s[0]); }
    }
  }

  predicate NotLess(x: string, s: string) { !CompareText(x, s).Less? }

  predicate BelowEnd(x: string, end: Option<string>) {
    end.None? || CompareText(x, end.value).Less?
  }

  lemma NextIsNext(c: char, d: char)
    ensures match NextChar(c) case Some(n) => (d < n <==> d <= c) && c < n case None => d <= c
  {
    var code := d as int;
    assert 0 <= code <= 0x10FFFF && !(0xD800 <= code < 0xE000);
  }

  /** A text starts with `s` exactly when it lies in `s <= x < end`. */
  lemma {:induction false} PrefixIsRange(x: string, s: string)
    ensures StartsWith(x, s) <==> NotLess(x, s) && BelowEnd(x, PrefixEnd(s))
  {
    SameEnd(s);
    if s != "" && x != "" {
      PrefixIsRange(x[1..], s[1..]);
      SameEnd(s[1..]);
      NextIsNext(s[0], x[0]);
      StartsWithSplits(x, s);
      match EndFromFront(s[1..])
      case Some(end) => assert ([s[0]] + end)[1..] == end;
      case None =>
        if NextChar(s[0]).Some? {
          var d := NextChar(s[0]).value;
          assert [d][1..] == "" && !CompareText(x[1..], "").Less?;
        }
    }
  }

  lemma StartsWithSplits(x: string, s: string)
    requires x != "" && s != ""
    ensures StartsWith(x, s) <==> x[0] == s[0] && StartsWith(x[1..], s[1..])
  {
    if |s| <= |x| {
      assert x[..|s|] == [x[0]] + x[1..][..|s| - 1];
      assert s == [s[0]] + s[1..];
    }
  }

  // ----- both ways round -----

  lemma {:induction false} CompareBothWays(a: Value, b: Value)
    ensures Compare(b, a) == match Compare(a, b) case None => None case Some(o) => Some(Flip(o))
    decreases a, b
  {
    match (a, b)
    case (Text(s), Text(t)) => TextFlips(s, t);
    case (List(xs), List(ys)) => CompareListsBothWays(xs, ys);
    case _ =>
  }

  lemma {:induction false} CompareListsBothWays(xs: seq<Value>, ys: seq<Value>)
    ensures CompareLists(ys, xs) == match CompareLists(xs, ys) case None => None case Some(o) => Some(Flip(o))
    decreases xs, ys
  {
    if xs != [] && ys != [] {
      CompareBothWays(xs[0], ys[0]);
      CompareListsBothWays(xs[1..], ys[1..]);
    }
  }
}
