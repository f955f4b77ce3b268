/** The Go binding's row iterator over a native stream of batches. */
module RowIterators {
  import opened Values

  /** What one native pull answers: rows, the end, an error status, or bytes
      that do not decode. */
  datatype Pull<R> = Batch(rows: seq<R>) | End | Failed(code: nat) | Garbled(code: nat)

  /** The rows a stream that answers `script` holds: batches up to the first
      end or error. */
  function RowsOf<R>(script: seq<Pull<R>>): seq<R> {
    if script == [] || !script[0].Batch? then [] else script[0].rows + RowsOf(script[1..])
  }

  /** The error the stream runs into, if it does before its end. */
  function ErrorOf<R>(script: seq<Pull<R>>): Option<nat> {
    if script == [] then None
    else match script[0]
      case Batch(_) => ErrorOf(script[1..])
      case End => None
      case Failed(code) => Some(code)
      case Garbled(code) => Some(code)
  }

  function From<R>(batch: seq<Option<R>>, pos: nat): seq<R>
    requires pos <= |batch| && forall i | pos <= i < |batch| :: batch[i].Some?
    decreases |batch| - pos
  {
    if pos == |batch| then [] else [batch[pos].value] + From(batch, pos + 1)
  }

  lemma {:induction false} FromSame<R>(a: seq<Option<R>>, b: seq<Option<R>>, pos: nat)
    requires pos <= |a| == |b| && forall i | pos <= i < |a| :: a[i].Some? && a[i] == b[i]
    ensures From(a, pos) == From(b, pos)
    decreases |a| - pos
  {
    if pos < |a| { FromSame(a, b, pos + 1); }
  }

  lemma {:induction false} FromWrapped<R>(rows: seq<R>, pos: nat)
    requires pos <= |rows|
    ensures forall i | pos <= i < |rows| :: Wrapped(rows)[i].Some?
    ensures From(Wrapped(rows), pos) == rows[pos..]
    decreases |rows| - pos
  {
    WrappedRows(rows);
    if pos < |rows| {
      FromWrapped(rows, pos + 1);
      assert rows[pos..] == [rows[pos]] + rows[pos + 1..];
    }
  }

  class RowIterator<R(0)> {
    /** The native stream, while it is not freed: what it will still answer. */
    var handle: Option<seq<Pull<R>>>
    var batch: seq<Option<R>>
    var pos: nat
    var current: Option<R>
    var err: Option<nat>

    ghost const script: seq<Pull<R>>
    ghost var yielded: seq<R>
    ghost var pulls: nat
    ghost var frees: nat
    ghost var closed: bool

    /** The rows of the batch not handed out yet. */
    ghost predicate Held()
      reads this
    {
      pos <= |batch| && forall i | pos <= i < |batch| :: batch[i].Some?
    }

    ghost function Left(): seq<R>
      requires Held()
      reads this
    {
      From(batch, pos)
    }

    /** Yielded, held and still native rows are the stream's rows, in order;
        the native stream is freed exactly when it is gone. */
    ghost predicate Valid()
      reads this
    {
      && Held() && frees == (if handle.Some? then 0 else 1)
      && yielded <= RowsOf(script) && (closed ==> handle.None? && pos >= |batch|)
      && (handle.Some? ==>
            !closed && err.None? && RowsOf(script) == yielded + Left() + RowsOf(handle.value)
            && ErrorOf(script) == ErrorOf(handle.value))
      && (handle.None? && !closed ==> RowsOf(script) == yielded + Left() && err == ErrorOf(script))
    }

    /** Nothing is left to do. */
    ghost predicate Over()
      reads this
    {
      handle.None? && pos >= |batch|
    }

    constructor (script: seq<Pull<R>>)
      ensures Valid() && handle == Some(script) && this.script == script && yielded == [] && !closed
    {
      handle, batch, pos, current, err := Some(script), [], 0, None, None;
      this.script, yielded, pulls, frees, closed := script, [], 0, 0, false;
    }

    /** The caller has handed out the whole batch. */
    method PullBatch() returns (more: bool)
      requires Valid() && handle.Some? && batch == [] && pos == 0
      modifies this
      ensures Valid() && yielded == old(yielded) && pulls == old(pulls) + 1 && pos == 0
      ensures closed == old(closed)
      ensures more == handle.Some? && (!more ==> batch == [])
      ensures more ==> |handle.value| < |old(handle).value|
    {
      pulls := pulls + 1;
      var answer := if handle.value == [] then End else handle.value[0];
      match answer
      case Batch(rows) =>
        HoldBatch(rows);
        more := true;
      case End =>
        Free();
        more := false;
      case Failed(code) =>
        Fail(code);
        more := false;
      case Garbled(code) =>
        Fail(code);
        more := false;
    }

    method HoldBatch(rows: seq<R>)
      requires Valid() && handle.Some? && batch == [] && pos == 0
      requires handle.value != [] && handle.value[0] == Batch(rows)
      modifies `handle, `batch
      ensures Valid() && handle == Some(old(handle).value[1..])
    {
      handle := Some(handle.value[1..]);
      batch := Wrapped(rows);
      FromWrapped(rows, 0);
      assert rows[0..] == rows;
    }

    method Fail(code: nat)
      requires handle.Some?
      modifies `handle, `frees, `err
      ensures handle.None? && frees == old(frees) + 1 && err == Some(code)
    {
      err := Some(code);
      Free();
    }

    method Free()
      requires handle.Some?
      modifies `handle, `frees
      ensures handle.None? && frees == old(frees) + 1
    {
      handle := None;
      frees := frees + 1;
    }

    method TakeHeld()
      requires Valid() && pos < |batch|
      modifies this
      ensures Valid() && closed == old(closed)
      ensures current.Some? && yielded == old(yielded) + [current.value]
    {
      ghost var before, row := batch, batch[pos].value;
      current := batch[pos];
      FromSame(batch, batch[pos := None], pos + 1);
      assert yielded + From(before, pos) == yielded + [row] + From(before, pos + 1);
      batch := batch[pos := None];
      pos := pos + 1;
      yielded := yielded + [row];
    }

    /** Advances by one row. Once over it stays so, without another pull. */
    method Next() returns (found: bool)
      requires Valid()
      modifies this
      ensures Valid() && closed == old(closed)
      ensures found ==> current.Some? && yielded == old(yielded) + [current.value]
      ensures !found ==> Over() && yielded == old(yielded)
      ensures !found && !closed ==> yielded == RowsOf(script) && err == ErrorOf(script)
      ensures old(Over()) ==> !found && pulls == old(pulls)
    {
      while true
        invariant Valid() && yielded == old(yielded) && closed == old(closed)
        invariant old(Over()) ==> Over() && pulls == old(pulls)
        decreases if handle.Some? then 1 + |handle.value| else 0
      {
        if pos < |batch| {
          TakeHeld();
          return true;
        }
        assert Left() == [];
        batch, pos := [], 0;
        assert Left() == [];
        if handle.None? { return false; }
        var more := PullBatch();
        if !more {
          assert Left() == [];
          return false;
        }
      }
    }

    /** Frees the native stream, once; a second Close does nothing. */
    method Close()
      requires Valid()
      modifies this
      ensures Valid() && Over() && closed && yielded == old(yielded) && pulls == old(pulls)
      ensures frees == 1 && err == old(err) && current == old(current)
    {
      if handle.Some? { Free(); }
      batch, pos, closed := [], 0, true;
    }
  }

  function Wrapped<R>(rows: seq<R>): (out: seq<Option<R>>)
    ensures |out| == |rows|
  {
    if rows == [] then [] else [Some(rows[0])] + Wrapped(rows[1..])
  }

  lemma {:induction false} WrappedRows<R>(rows: seq<R>)
    ensures forall i | 0 <= i < |rows| :: Wrapped(rows)[i] == Some(rows[i])
  {
    if rows != [] {
      WrappedRows(rows[1..]);
      forall i | 0 <= i < |rows| ensures Wrapped(rows)[i] == Some(rows[i]) {
        if i > 0 { assert rows[i] == rows[1..][i - 1]; }
      }
    }
  }

  // ----- a whole use of the iterator -----

  datatype Use = CallNext | CallClose

  /** Any sequence of calls: the rows handed out are a prefix of the stream's,
      the stream is freed at most once, and after a Close nothing comes. */
  method Drive<R(0)>(it: RowIterator<R>, uses: seq<Use>) returns (rows: seq<R>)
    requires it.Valid() && it.yielded == []
    modifies it
    ensures it.Valid() && rows == it.yielded && rows <= RowsOf(it.script) && it.frees <= 1
    ensures CallClose in uses ==> it.Over() && it.frees == 1
  {
    rows := [];
    for i := 0 to |uses|
      invariant it.Valid() && rows == it.yielded
      invariant CallClose in uses[..i] ==> it.Over()
    {
      assert uses[..i + 1] == uses[..i] + [uses[i]];
      if uses[i].CallNext? {
        var found := it.Next();
        if found { rows := rows + [it.current.value]; }
      } else {
        it.Close();
      }
    }
    assert uses[..|uses|] == uses;
  }
}
