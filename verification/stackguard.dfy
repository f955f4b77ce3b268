/** Growing the stack under recursive walks: the guard, its per-thread limit,
    and why no guarded step runs out of stack. */
module StackGuard {
  const ADDRESSES: nat := 0x1_0000_0000_0000_0000
  const GIB: nat := 0x4000_0000
  const RED_ZONE: nat := 0x8_0000

  /** The limit of a thread whose bound is not looked up yet. */
  const UNKNOWN: nat := ADDRESSES - 1 - GIB

  /** The limit where no bound can be found. */
  const UNBOUNDED: nat := 0

  /** What a step does: it calls guards in turn, the stack `depth` bytes below
      where it started, and may end in a panic. `peak` is the most stack it
      uses itself. */
  datatype Work = Work(peak: nat, calls: seq<Call>, panics: bool)
  datatype Call = Call(depth: nat, redZone: nat, work: Work)

  /** The step uses at most the red zone it was guarded with before it reaches
      its next guard, and so do the steps below it. */
  ghost predicate Behaves(w: Work, redZone: nat)
    decreases w, 0
  {
    w.peak <= redZone && AllBehave(w.calls, redZone)
  }

  ghost predicate AllBehave(calls: seq<Call>, redZone: nat)
    decreases calls, 0
  {
    calls == [] ||
    (var Call(depth, zone, work) := calls[0];
     assert work < calls[0];
     depth <= redZone && zone <= GIB && Behaves(work, zone) && AllBehave(calls[1..], redZone))
  }

  /** Whether some step reached in order panics; nothing runs after it. */
  predicate Panics(w: Work)
    decreases w, 0
  {
    AnyPanics(w.calls) || w.panics
  }

  predicate AnyPanics(calls: seq<Call>)
    decreases calls, 0
  {
    calls != [] && (var Call(_, _, work) := calls[0]; assert work < calls[0]; Panics(work) || AnyPanics(calls[1..]))
  }

  /** The guarded steps that start, up to a panic. */
  function Starts(w: Work): nat
    decreases w, 0
  {
    AllStarts(w.calls)
  }

  function AllStarts(calls: seq<Call>): nat
    decreases calls, 0
  {
    if calls == [] then 0
    else
      var Call(_, _, work) := calls[0];
      assert work < calls[0];
      1 + Starts(work) + if Panics(work) then 0 else AllStarts(calls[1..])
  }

  function Larger(a: nat, b: nat): nat { if a < b then b else a }

  /** A segment as it is allocated: four times the larger of the two zones. */
  function SegmentSize(redZone: nat): nat { 4 * Larger(redZone, RED_ZONE) }

  /** Where the `k`th segment of some size is put. */
  type Placement = (nat, nat) -> nat

  ghost predicate Places(place: Placement) {
    forall k: nat, size: nat | size <= 4 * GIB :: place(k, size) + size < UNKNOWN
  }

  /** A step that started: what was free of its stack, its red zone, the most
      it uses, and whether the limit then was the true bound. */
  datatype Start = Start(free: int, redZone: nat, peak: nat, limitTrue: bool)

  predicate StartSafe(s: Start) { s.free >= s.redZone >= s.peak && s.limitTrue }

  class Thread {
    /** The cell the guards read. */
    var limit: nat
    /** The lowest usable address of the stack the thread runs on now. */
    var bottom: nat
    var segments: nat
    /** Whether the platform can tell how much stack remains. */
    const tells: bool
    const place: Placement
    ghost var starts: seq<Start>

    constructor (bottom: nat, tells: bool, place: Placement)
      ensures limit == UNKNOWN && this.bottom == bottom && this.tells == tells && this.place == place
      ensures starts == []
    {
      limit, this.bottom, segments, starts := UNKNOWN, bottom, 0, [];
      this.tells, this.place := tells, place;
    }

    function Bound(): nat
      reads this
    {
      if tells then bottom else UNBOUNDED
    }

    /** The cell holds the true bound of the current stack, or says that it is
        not known. */
    ghost predicate LimitTrue()
      reads this
    {
      limit == UNKNOWN || limit == Bound()
    }

    /** What `stacker` reports at address `sp`. */
    function Remaining(sp: nat): (left: int)
      reads this
    {
      sp - bottom
    }

    /** Every step logged since had its red zone free, and the limit right. */
    ghost predicate AllSafe(from: nat)
      reads this
    {
      forall k | from <= k < |starts| :: StartSafe(starts[k])
    }

    method GuardWith(sp: nat, redZone: nat, work: Work) returns (panicked: bool)
      requires bottom <= sp < UNKNOWN && redZone <= GIB
      requires Behaves(work, redZone) && Places(place) && LimitTrue()
      requires tells || bottom + redZone <= sp
      requires !tells ==> Roomy(work, sp, bottom)
      modifies this
      ensures bottom == old(bottom) && LimitTrue()
      ensures limit == old(limit) || old(limit) == UNKNOWN
      ensures |starts| == |old(starts)| + 1 + Starts(work) && starts[..|old(starts)|] == old(starts)
      ensures AllSafe(|old(starts)|)
      ensures panicked == Panics(work)
      decreases work, 1
    {
      if sp >= limit + redZone {
        panicked := Run(sp, redZone, work);
      } else {
        panicked := Low(sp, redZone, work);
      }
    }

    /** The stack is low, or the bound is not known yet. */
    method Low(sp: nat, redZone: nat, work: Work) returns (panicked: bool)
      requires bottom <= sp < UNKNOWN && redZone <= GIB
      requires Behaves(work, redZone) && Places(place) && LimitTrue()
      requires tells || bottom + redZone <= sp
      requires !tells ==> Roomy(work, sp, bottom)
      modifies this
      ensures bottom == old(bottom) && LimitTrue()
      ensures limit == old(limit) || old(limit) == UNKNOWN
      ensures |starts| == |old(starts)| + 1 + Starts(work) && starts[..|old(starts)|] == old(starts)
      ensures AllSafe(|old(starts)|)
      ensures panicked == Panics(work)
      decreases work, 1, 0
    {
      if !tells {
        limit := UNBOUNDED;
        panicked := Run(sp, redZone, work);
        return;
      }
      var left := Remaining(sp);
      limit := sp - left;
      if left >= redZone {
        panicked := Run(sp, redZone, work);
        return;
      }
      // On a new segment; what it set is put back however the step ends.
      var size := SegmentSize(redZone);
      var restoreLimit, restoreBottom := limit, bottom;
      bottom := place(segments, size);
      segments := segments + 1;
      limit := bottom;
      panicked := Run(bottom + size, redZone, work);
      limit, bottom := restoreLimit, restoreBottom;
    }

    /** The guarded step itself, from address `sp` down. */
    method Run(sp: nat, redZone: nat, work: Work) returns (panicked: bool)
      requires bottom <= sp < UNKNOWN && redZone <= GIB
      requires Behaves(work, redZone) && Places(place) && limit == Bound()
      requires bottom + redZone <= sp
      requires !tells ==> Roomy(work, sp, bottom)
      modifies this
      ensures bottom == old(bottom)
      ensures limit == old(limit)
      ensures |starts| == |old(starts)| + 1 + Starts(work) && starts[..|old(starts)|] == old(starts)
      ensures AllSafe(|old(starts)|)
      ensures panicked == Panics(work)
      decreases work, 0
    {
      starts := starts + [Start(sp - bottom, redZone, work.peak, limit == Bound())];
      panicked := RunAll(sp, redZone, work.calls);
      panicked := panicked || work.panics;
    }

    method RunAll(sp: nat, redZone: nat, calls: seq<Call>) returns (panicked: bool)
      requires bottom <= sp < UNKNOWN && redZone <= GIB
      requires AllBehave(calls, redZone) && Places(place) && limit == Bound()
      requires bottom + redZone <= sp
      requires !tells ==> AllRoomy(calls, sp, bottom)
      modifies this
      ensures bottom == old(bottom)
      ensures limit == old(limit)
      ensures |starts| == |old(starts)| + AllStarts(calls) && starts[..|old(starts)|] == old(starts)
      ensures AllSafe(|old(starts)|)
      ensures panicked == AnyPanics(calls)
      decreases calls, 0
    {
      panicked := false;
      if calls != [] {
        var Call(depth, zone, work) := calls[0];
        assert work < calls[0];
        panicked := GuardWith(sp - depth, zone, work);
        if !panicked { panicked := RunAll(sp, redZone, calls[1..]); }
      }
    }
  }

  /** Where no bound can be found the stack must simply be large enough. */
  ghost predicate Roomy(w: Work, sp: int, bottom: nat)
    decreases w, 0
  {
    AllRoomy(w.calls, sp, bottom)
  }

  ghost predicate AllRoomy(calls: seq<Call>, sp: int, bottom: nat)
    decreases calls, 0
  {
    calls == [] ||
    (var Call(depth, zone, work) := calls[0];
     assert work < calls[0];
     bottom + zone <= sp - depth && Roomy(work, sp - depth, bottom) && AllRoomy(calls[1..], sp, bottom))
  }
}
