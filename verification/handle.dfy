/** The Go binding's database handle: any number of goroutines, each call a
    few steps under a read/write lock, in every interleaving. */
module Handle {
  /** Execute, Stream, Clear and the counts read the handle; Close, called or
      run by the finalizer, frees it. */
  datatype Op = Use | Close

  /** Where a goroutine is. `Closed` is a use that found no handle. */
  datatype Pc =
    | Idle
    | Waiting(op: Op)
    | Locked(op: Op)
    | InNative
    | Freeing
    | Freed
    | Leaving(op: Op, closed: bool)

  /** `handle`: the field is not nil. `frees` counts native frees. */
  datatype State = State(
    pcs: map<nat, Pc>, readers: set<nat>, writer: set<nat>, handle: bool, frees: nat)

  function At(s: State, t: nat): Pc { if t in s.pcs then s.pcs[t] else Idle }

  function Move(s: State, t: nat, pc: Pc): State { s.(pcs := s.pcs[t := pc]) }

  ghost predicate Init(s: State) {
    s.pcs == map[] && s.readers == {} && s.writer == {} && s.handle && s.frees == 0
  }

  /** One step of goroutine `t`. */
  ghost predicate Step(s: State, t: nat, s': State) {
    match At(s, t)
    case Idle => exists op :: s' == Move(s, t, Waiting(op))
    case Waiting(Use) =>
      s.writer == {} && s' == Move(s, t, Locked(Use)).(readers := s.readers + {t})
    case Waiting(Close) =>
      s.writer == {} && s.readers == {} && s' == Move(s, t, Locked(Close)).(writer := {t})
    case Locked(Use) => s' == Move(s, t, if s.handle then InNative else Leaving(Use, true))
    case Locked(Close) => s' == Move(s, t, if s.handle then Freeing else Leaving(Close, true))
    case InNative => s' == Move(s, t, Leaving(Use, false))
    case Freeing => s' == Move(s, t, Freed).(frees := s.frees + 1)
    case Freed => s' == Move(s, t, Leaving(Close, false)).(handle := false)
    case Leaving(Use, _) => s' == Move(s, t, Idle).(readers := s.readers - {t})
    case Leaving(Close, _) => s' == Move(s, t, Idle).(writer := s.writer - {t})
  }

  ghost predicate Next(s: State, s': State) { exists t :: Step(s, t, s') }

  ghost predicate Run(states: seq<State>) {
    states != [] && Init(states[0])
    && forall i | 0 <= i < |states| - 1 :: Next(states[i], states[i + 1])
  }

  // ----- the invariant -----

  predicate Reads(pc: Pc) { pc == Locked(Use) || pc.InNative? || (pc.Leaving? && pc.op.Use?) }

  predicate Writes(pc: Pc) {
    pc == Locked(Close) || pc.Freeing? || pc.Freed? || (pc.Leaving? && pc.op.Close?)
  }

  /** The lock: readers or one writer, each where its program counter says. */
  ghost predicate LockHeld(s: State) {
    && (forall t: nat :: t in s.readers <==> Reads(At(s, t)))
    && (forall t: nat :: t in s.writer <==> Writes(At(s, t)))
    && (s.writer != {} ==> s.readers == {})
    && (forall t, u | t in s.writer && u in s.writer :: t == u)
  }

  /** The handle is freed once, by a writer that then clears the field. */
  ghost predicate HandleRight(s: State) {
    && (forall t: nat | At(s, t).InNative? || At(s, t).Freeing? :: s.handle && s.frees == 0)
    && (forall t: nat | At(s, t).Freed? :: s.handle && s.frees == 1)
    && (!s.handle ==> s.frees == 1)
    && (forall t: nat | At(s, t).Leaving? && (At(s, t).op.Close? || At(s, t).closed) :: !s.handle)
    && (s.handle && (forall t: nat :: !At(s, t).Freed?) ==> s.frees == 0)
  }

  ghost predicate Inv(s: State) { LockHeld(s) && HandleRight(s) }

  lemma StepLock(s: State, t: nat, s': State)
    requires LockHeld(s) && Step(s, t, s')
    ensures LockHeld(s')
  {
    forall u: nat | u != t ensures At(s', u) == At(s, u) {}
    assert t in s.readers <==> Reads(At(s, t));
    assert t in s.writer <==> Writes(At(s, t));
  }

  lemma StepHandle(s: State, t: nat, s': State)
    requires Inv(s) && Step(s, t, s')
    ensures HandleRight(s')
  {
    forall u: nat | u != t ensures At(s', u) == At(s, u) {}
    assert t in s.writer <==> Writes(At(s, t));
    forall u: nat ensures u in s.writer <==> Writes(At(s, u)) {}
    forall u: nat ensures u in s.readers <==> Reads(At(s, u)) {}
    match At(s, t)
    case Locked(Use) =>
      assert t in s.readers;
      assert forall u: nat :: !At(s, u).Freed?;
    case Locked(Close) =>
      assert forall u: nat :: At(s, u).Freed? ==> u == t;
    case Freeing =>
      assert At(s', t).Freed?;
      assert forall u: nat | u != t :: !Writes(At(s, u)) && !Reads(At(s, u));
    case Freed =>
      assert forall u: nat | u != t :: !Writes(At(s, u)) && !Reads(At(s, u));
      assert At(s, t).Freed? && s.frees == 1;
    case _ =>
      assert forall u: nat :: At(s', u).Freed? <==> At(s, u).Freed?;
  }

  lemma {:induction false} RunInv(states: seq<State>, i: nat)
    requires Run(states) && i < |states|
    ensures Inv(states[i])
  {
    if i > 0 {
      RunInv(states, i - 1);
      assert Next(states[i - 1], states[i - 1 + 1]);
      var t :| Step(states[i - 1], t, states[i]);
      StepLock(states[i - 1], t, states[i]);
      StepHandle(states[i - 1], t, states[i]);
    }
  }

  /** Over every interleaving: no native call runs on a freed handle, nor is
      the handle freed while one runs, and it is freed at most once. */
  lemma NoUseAfterFree(states: seq<State>, i: nat, t: nat)
    requires Run(states) && i < |states|
    ensures states[i].frees <= 1
    ensures At(states[i], t).InNative? ==> states[i].handle && states[i].frees == 0
    ensures At(states[i], t).InNative? ==> forall u: nat :: !At(states[i], u).Freeing? && !At(states[i], u).Freed?
  {
    RunInv(states, i);
    var s := states[i];
    if s.handle && s.frees != 0 {
      var u: nat :| At(s, u).Freed?;
    }
    if At(s, t).InNative? {
      assert t in s.readers;
      forall u: nat ensures !At(s, u).Freeing? && !At(s, u).Freed? {
        assert u in s.writer <==> Writes(At(s, u));
      }
    }
  }

  /** A use that leaves without finding the database closed has made its
      native call, and a Close that does so has freed the handle. */
  lemma {:induction false} LeftAfterCall(states: seq<State>, i: nat, t: nat) returns (j: nat)
    requires Run(states) && i < |states| && At(states[i], t).Leaving? && !At(states[i], t).closed
    ensures j < i && At(states[j], t) == (if At(states[i], t).op.Use? then InNative else Freed)
    ensures forall k | j < k <= i :: At(states[k], t) == At(states[i], t)
  {
    assert i > 0;
    assert Next(states[i - 1], states[i - 1 + 1]);
    var u :| Step(states[i - 1], u, states[i]);
    if At(states[i - 1], t).Leaving? && u != t { j := LeftAfterCall(states, i - 1, t); } else { j := i - 1; }
  }

  /** Once cleared the handle stays so, and every later call finds it closed. */
  lemma {:induction false} ClosedForGood(states: seq<State>, i: nat, j: nat, t: nat)
    requires Run(states) && i <= j < |states| && !states[i].handle
    ensures !states[j].handle && states[j].frees == 1
    ensures !At(states[j], t).InNative? && !At(states[j], t).Freeing?
    decreases j
  {
    RunInv(states, j);
    if i < j {
      ClosedForGood(states, i, j - 1, t);
      assert Next(states[j - 1], states[j - 1 + 1]);
      var u :| Step(states[j - 1], u, states[j]);
    }
  }

  /** A Close on its way out leaves no handle, and a use that reports the
      database closed is right. */
  lemma CloseCloses(states: seq<State>, i: nat, t: nat)
    requires Run(states) && i < |states| && At(states[i], t).Leaving?
    requires At(states[i], t).op.Close? || At(states[i], t).closed
    ensures !states[i].handle && states[i].frees == 1
  {
    RunInv(states, i);
  }
}
