/** The TypeScript reader of the same format: numbers where they are exact,
    bigints where not, and a cache of row factories. */
module TsReaders {
  import opened Values
  import opened Wire
  import opened RoundTrip
  import opened GoReaders

  // ----- binary64 integers -----

  function Pow2(e: nat): nat { if e == 0 then 1 else 2 * Pow2(e - 1) }

  const SAFE_LIMIT: int := 0x20_0000_0000_0000

  /** An integer a number holds exactly: 53 bits and zeros. */
  ghost predicate Exact(n: int) {
    exists m: int, e: nat :: -SAFE_LIMIT <= m <= SAFE_LIMIT && n == Scaled(m, e)
  }

  function Scaled(m: int, e: nat): int { m * Pow2(e) }

  lemma ScaledParity(m: int, e: nat)
    ensures if e == 0 then Scaled(m, e) == m else Scaled(m, e) % 2 == 0
  {
    if e > 0 { assert Scaled(m, e) == 2 * (m * Pow2(e - 1)); }
  }

  /** Rounding to a number: exact integers stay. */
  type Rounding = int -> int

  ghost predicate Rounds(round: Rounding) {
    forall n :: Exact(round(n)) && (Exact(n) ==> round(n) == n)
  }

  lemma SmallExact(n: int)
    requires -SAFE_LIMIT <= n <= SAFE_LIMIT
    ensures Exact(n)
  {
    assert n == Scaled(n, 0);
  }

  /** The first integer a number cannot hold. */
  lemma NotExact()
    ensures !Exact(SAFE_LIMIT + 1)
  {
    forall m: int, e: nat | -SAFE_LIMIT <= m <= SAFE_LIMIT ensures SAFE_LIMIT + 1 != Scaled(m, e) {
      ScaledParity(m, e);
    }
  }

  datatype TsNumber = Num(value: int) | Big(value: int)

  /** Low and high halves of a 64-bit integer. */
  lemma Halves(b: Bytes)
    requires |b| == 8
    ensures var lo, hi := FromLE(b[..4]), Signed(FromLE(b[4..]), 4);
      Signed(FromLE(b), 8) == hi * 0x1_0000_0000 + lo && 0 <= lo < 0x1_0000_0000
  {
    Powers();
    FromLEBelow(b[..4]);
    FromLEBelow(b[4..]);
    FromLESplit(b[..4], b[4..]);
    assert b == b[..4] + b[4..];
  }

  lemma FromLEStep(c: Byte, b: Bytes)
    ensures FromLE([c] + b) == c + 256 * FromLE(b)
  {
    assert ([c] + b)[1..] == b;
  }

  lemma FromLESplit(a: Bytes, b: Bytes)
    requires |a| == 4
    ensures FromLE(a + b) == FromLE(a) + U32_LIMIT * FromLE(b)
  {
    assert a == [a[0]] + ([a[1]] + ([a[2]] + ([a[3]] + [])));
    assert a + b == [a[0]] + ([a[1]] + ([a[2]] + ([a[3]] + b)));
    FromLEStep(a[3], []);
    FromLEStep(a[2], [a[3]] + []);
    FromLEStep(a[1], [a[2]] + ([a[3]] + []));
    FromLEStep(a[0], [a[1]] + ([a[2]] + ([a[3]] + [])));
    FromLEStep(a[3], b);
    FromLEStep(a[2], [a[3]] + b);
    FromLEStep(a[1], [a[2]] + ([a[3]] + b));
    FromLEStep(a[0], [a[1]] + ([a[2]] + ([a[3]] + b)));
  }

  // ----- values -----

  datatype TsValue =
    | TsNull
    | TsBool(flag: bool)
    | TsInt(number: TsNumber)
    | TsFloat(bits: Bytes)
    | TsString(text: Bytes)
    | TsArray(items: seq<TsValue>)
    | TsObject(entries: map<Bytes, TsValue>)
    | TsNode(id: int)
    | TsRelationship(id: int)
    | TsPath(nodes: seq<int>, rels: seq<int>)
    | TsIso(kind: Byte, text: Bytes)
    | TsPoint(srid: nat, x: Bytes, y: Bytes, z: Option<Bytes>)
    | TsVector(coord: Byte, values: seq<Component>)
    | TsBinary(segments: seq<Bytes>)

  function IntOf(v: int): TsNumber { if -SAFE_LIMIT <= v < SAFE_LIMIT then Num(v) else Big(v) }

  function Rounded(ids: seq<int>, round: Rounding): seq<int> {
    if ids == [] then [] else [round(ids[0])] + Rounded(ids[1..], round)
  }

  /** A 64-bit component becomes a number; the narrower ones are numbers. */
  function TsComponents(coord: int, values: seq<Component>, round: Rounding): (cs: seq<Component>)
    ensures |cs| == |values|
  {
    if values == [] then []
    else
      var first := if coord == 2 && values[0].Whole? then Whole(round(values[0].number)) else values[0];
      [first] + TsComponents(coord, values[1..], round)
  }

  /** Ids and 64-bit vector components are read as plain numbers. */
  function TsOf(c: Cell, round: Rounding): TsValue
    decreases c, 0
  {
    match c
    case NullCell => TsNull
    case BoolCell(b) => TsBool(b)
    case Int32(v) => TsInt(Num(v))
    case Int64(v) => TsInt(IntOf(v))
    case Float(bits) => TsFloat(bits)
    case TextCell(text) => TsString(text)
    case ListCell(items) => TsArray(TsAll(items, round))
    case MapCell(entries) => TsObject(TsEntries(entries, round))
    case Node(id) => TsNode(round(id))
    case Relationship(id) => TsRelationship(round(id))
    case PathCell(nodes, rels) => TsPath(Rounded(nodes, round), Rounded(rels, round))
    case Iso(kind, text) => TsIso(kind, text)
    case Point(srid, x, y, z) => TsPoint(srid, x, y, z)
    case Vector(coord, values) =>
      TsVector(coord, TsComponents(coord, Components(coord, values), round))
    case Binary(segments) => TsBinary(segments)
  }

  function TsAll(cs: seq<Cell>, round: Rounding): (ts: seq<TsValue>)
    ensures |ts| == |cs|
    decreases cs, 0
  {
    if cs == [] then [] else [TsOf(cs[0], round)] + TsAll(cs[1..], round)
  }

  /** A later entry of the same key wins. */
  function TsEntries(es: seq<Entry>, round: Rounding): map<Bytes, TsValue>
    decreases es, 0
  {
    if es == [] then map[]
    else
      var last := es[|es| - 1];
      assert last.cell < last;
      TsEntries(es[..|es| - 1], round)[last.key := TsOf(last.cell, round)]
  }

  // ----- the value the Go reader gives -----

  /** The same value; integers exact, ids and 64-bit vector components as
      rounded numbers. */
  ghost predicate SameValue(g: GoValue, t: TsValue, round: Rounding)
    decreases g
  {
    match g
    case Nil => t == TsNull
    case GoBool(flag) => t == TsBool(flag)
    case GoInt(n) => t.TsInt? && t.number.value == n && (t.number.Num? <==> -SAFE_LIMIT <= n < SAFE_LIMIT)
    case GoFloat(bits) => t == TsFloat(bits)
    case GoString(text) => t == TsString(text)
    case GoSlice(items) =>
      t.TsArray? && |t.items| == |items| && forall i | 0 <= i < |items| :: SameValue(items[i], t.items[i], round)
    case GoMap(entries) =>
      t.TsObject? && t.entries.Keys == entries.Keys
      && forall k | k in entries :: SameValue(entries[k], t.entries[k], round)
    case GoNode(id) => t == TsNode(round(id))
    case GoRelationship(id) => t == TsRelationship(round(id))
    case GoPath(nodes, rels) => t.TsPath? && SameIds(nodes, t.nodes, round) && SameIds(rels, t.rels, round)
    case GoIso(kind, text) => t == TsIso(kind, text)
    case GoPoint(srid, x, y, z) => t == TsPoint(srid, x, y, z)
    case GoVector(coord, values) =>
      t.TsVector? && t.coord == coord && |t.values| == |values|
      && forall i | 0 <= i < |values| ::
           (t.values[i] == if coord == 2 && values[i].Whole? then Whole(round(values[i].number)) else values[i])
    case GoBinary(segments) => t == TsBinary(segments)
  }

  predicate SameIds(ids: seq<int>, read: seq<int>, round: Rounding) {
    |read| == |ids| && forall i | 0 <= i < |ids| :: read[i] == round(ids[i])
  }

  lemma {:induction false} RoundedSame(ids: seq<int>, round: Rounding)
    ensures SameIds(ids, Rounded(ids, round), round)
  {
    if ids != [] { RoundedSame(ids[1..], round); }
  }

  lemma {:induction false} ComponentsSame(coord: int, values: seq<Component>, round: Rounding)
    ensures forall i | 0 <= i < |values| ::
      (TsComponents(coord, values, round)[i]
       == if coord == 2 && values[i].Whole? then Whole(round(values[i].number)) else values[i])
  {
    if values != [] { ComponentsSame(coord, values[1..], round); }
  }

  /** Both readers give the same value of every cell. */
  lemma {:induction false} ReadersAgree(c: Cell, round: Rounding)
    requires Fits(c)
    ensures SameValue(GoOf(c), TsOf(c, round), round)
    decreases c, 0
  {
    match c
    case ListCell(items) => ListsAgree(items, round);
    case MapCell(entries) => EntriesAgree(entries, round);
    case PathCell(nodes, rels) => RoundedSame(nodes, round); RoundedSame(rels, round);
    case Vector(coord, values) => ComponentsSame(coord, Components(coord, values), round);
    case Int32(_) => Powers();
    case _ =>
  }

  lemma {:induction false} ListsAgree(cs: seq<Cell>, round: Rounding)
    requires AllFit(cs)
    ensures forall i | 0 <= i < |cs| :: SameValue(GoAll(cs)[i], TsAll(cs, round)[i], round)
    decreases cs, 0
  {
    GoAllAt(cs);
    TsAllAt(cs, round);
    forall i | 0 <= i < |cs| ensures SameValue(GoOf(cs[i]), TsOf(cs[i], round), round) {
      AllFitAt(cs, i);
      ReadersAgree(cs[i], round);
    }
  }

  lemma {:induction false} AllFitAt(cs: seq<Cell>, i: nat)
    requires AllFit(cs) && i < |cs|
    ensures Fits(cs[i])
  {
    if i > 0 { AllFitAt(cs[1..], i - 1); }
  }

  lemma {:induction false} TsAllAt(cs: seq<Cell>, round: Rounding)
    ensures forall i | 0 <= i < |cs| :: TsAll(cs, round)[i] == TsOf(cs[i], round)
  {
    if cs != [] { TsAllAt(cs[1..], round); }
  }

  lemma {:induction false} EntriesFitLast(es: seq<Entry>)
    requires EntriesFit(es) && es != []
    ensures EntriesFit(es[..|es| - 1]) && Fits(es[|es| - 1].cell)
  {
    if |es| > 1 {
      EntriesFitLast(es[1..]);
      assert es[1..][..|es| - 2] == es[..|es| - 1][1..];
    }
  }

  lemma {:induction false} EntriesAgree(es: seq<Entry>, round: Rounding)
    requires EntriesFit(es)
    ensures TsEntries(es, round).Keys == GoEntries(es).Keys
    ensures forall k | k in GoEntries(es) :: SameValue(GoEntries(es)[k], TsEntries(es, round)[k], round)
    decreases es, 0
  {
    if es == [] { return; }
    var last := es[|es| - 1];
    assert last.cell < last;
    EntriesFitLast(es);
    EntriesAgree(es[..|es| - 1], round);
    ReadersAgree(last.cell, round);
  }

  /** The 64-bit read is exact for every input, a number where one can hold
      it and all its neighbours, a bigint elsewhere. */
  lemma IntIsExact(v: int)
    requires FitsSigned(v, 8)
    ensures IntOf(v).value == v
    ensures IntOf(v).Num? <==> -SAFE_LIMIT <= v < SAFE_LIMIT
    ensures IntOf(v).Num? ==> Exact(v)
  {
    if IntOf(v).Num? { SmallExact(v); }
  }

  /** An id is read as itself exactly when a number can hold it. */
  lemma IdIsExactIff(id: int, round: Rounding)
    requires Rounds(round)
    ensures TsOf(Node(id), round) == TsNode(id) <==> Exact(id)
  {
    assert Exact(round(id));
  }

  /** Any other id is read as another id is, which the reader cannot tell
      from it. */
  lemma IdsCollide(id: int, round: Rounding)
    requires Rounds(round) && !Exact(id)
    ensures round(id) != id && TsOf(Node(round(id)), round) == TsOf(Node(id), round)
  {
    assert Exact(round(id));
  }

  /** And there are such ids among the 64-bit ones. */
  lemma SomeIdCollides()
    ensures FitsSigned(SAFE_LIMIT + 1, 8) && !Exact(SAFE_LIMIT + 1)
  {
    Powers();
    NotExact();
  }

  /** Reads a buffer the encoder laid out; nothing here checks for its end. */
  class Reader {
    const bytes: Bytes
    const round: Rounding
    var off: nat

    ghost function Rest(): Bytes
      requires off <= |bytes|
      reads this
    {
      bytes[off..]
    }

    constructor (bytes: Bytes, round: Rounding)
      ensures this.bytes == bytes && this.round == round && off == 0 && Rest() == bytes
    {
      this.bytes, this.round, off := bytes, round, 0;
    }

    function Here(): int
      requires off + 8 <= |bytes|
      reads this
    {
      Signed(FromLE(bytes[off..off + 8]), 8)
    }

    /** Two 32-bit reads where the high half is small, else a bigint read. */
    method I64() returns (r: TsNumber)
      requires off + 8 <= |bytes|
      modifies `off
      ensures r == IntOf(old(Here())) && off == old(off) + 8
    {
      var lo := FromLE(bytes[off..off + 4]);
      var hi := Signed(FromLE(bytes[off + 4..off + 8]), 4);
      Halves(bytes[off..off + 8]);
      assert bytes[off..off + 8][..4] == bytes[off..off + 4];
      assert bytes[off..off + 8][4..] == bytes[off + 4..off + 8];
      if -0x20_0000 <= hi < 0x20_0000 {
        off := off + 8;
        return Num(hi * 0x1_0000_0000 + lo);
      }
      var big := Here();
      off := off + 8;
      r := if -(SAFE_LIMIT - 1) <= big <= SAFE_LIMIT - 1 then Num(big) else Big(big);
    }

    /** For ids: always a number, rounded once. */
    method I64AsNumber() returns (r: int)
      requires off + 8 <= |bytes|
      modifies `off
      ensures r == round(old(Here())) && off == old(off) + 8
    {
      var lo := FromLE(bytes[off..off + 4]);
      var hi := Signed(FromLE(bytes[off + 4..off + 8]), 4);
      Halves(bytes[off..off + 8]);
      assert bytes[off..off + 8][..4] == bytes[off..off + 4];
      assert bytes[off..off + 8][4..] == bytes[off + 4..off + 8];
      off := off + 8;
      r := round(hi * 0x1_0000_0000 + lo);
    }

    method Raw(n: nat) returns (r: Bytes)
      requires off <= |bytes| && Take(Rest(), n).Some?
      modifies `off
      ensures off <= |bytes| && Some((r, Rest())) == Take(old(Rest()), n)
    {
      r := bytes[off..off + n];
      assert bytes[off..][..n] == r && bytes[off..][n..] == bytes[off + n..];
      off := off + n;
    }

    method U32() returns (r: nat)
      requires off <= |bytes| && ReadU32(Rest()).Some?
      modifies `off
      ensures off <= |bytes| && Some((r, Rest())) == ReadU32(old(Rest()))
    {
      var b := Raw(4);
      r := FromLE(b);
    }

    method Str() returns (r: Bytes)
      requires off <= |bytes| && ReadText(Rest()).Some?
      modifies `off
      ensures off <= |bytes| && Some((r, Rest())) == ReadText(old(Rest()))
    {
      var n := U32();
      r := Raw(n);
    }

    method Id() returns (r: int, ghost id: int)
      requires off <= |bytes| && ReadSigned(Rest(), 8).Some?
      modifies `off
      ensures off <= |bytes| && r == round(id) && Some((id, Rest())) == ReadSigned(old(Rest()), 8)
    {
      id := Here();
      assert bytes[off..][..8] == bytes[off..off + 8] && bytes[off..][8..] == bytes[off + 8..];
      r := I64AsNumber();
    }

    method Ids(n: nat) returns (r: seq<int>)
      requires off <= |bytes| && ReadIds(Rest(), n).Some?
      modifies `off
      ensures off <= |bytes| && ReadIds(old(Rest()), n).value.1 == Rest()
      ensures r == Rounded(ReadIds(old(Rest()), n).value.0, round)
    {
      r := [];
      ghost var ids: seq<int> := [];
      var i := 0;
      AfterNone(ReadIds(Rest(), n));
      while i < n
        invariant i <= n && off <= |bytes| && r == Rounded(ids, round)
        invariant ReadIds(old(Rest()), n) == After(ids, ReadIds(Rest(), n - i))
      {
        IdsStep(ids, Rest(), n - i);
        var next, id := Id();
        RoundedSnoc(ids, id, round);
        r, ids, i := r + [next], ids + [id], i + 1;
      }
      AfterEnd(ids, Rest());
    }

    method Raws(width: nat, n: nat) returns (r: seq<Bytes>)
      requires off <= |bytes| && ReadRaws(Rest(), width, n).Some?
      modifies `off
      ensures off <= |bytes| && Some((r, Rest())) == ReadRaws(old(Rest()), width, n)
    {
      r := [];
      var i := 0;
      AfterNone(ReadRaws(Rest(), width, n));
      while i < n
        invariant i <= n && off <= |bytes|
        invariant ReadRaws(old(Rest()), width, n) == After(r, ReadRaws(Rest(), width, n - i))
      {
        RawsStep(r, Rest(), width, n - i);
        var next := Raw(width);
        r, i := r + [next], i + 1;
      }
      AfterEnd(r, Rest());
    }

    method Segments(n: nat) returns (r: seq<Bytes>)
      requires off <= |bytes| && ReadSegments(Rest(), n).Some?
      modifies `off
      ensures off <= |bytes| && Some((r, Rest())) == ReadSegments(old(Rest()), n)
    {
      r := [];
      var i := 0;
      ghost var rest := Rest();
      ghost var all := ReadSegments(rest, n);
      AfterNone(all);
      while i < n
        invariant i <= n && off <= |bytes|
        invariant rest == Rest() && all == After(r, ReadSegments(rest, n - i))
      {
        SegmentsStep(r, rest, n - i);
        var next := Str();
        rest := Rest();
        r, i := r + [next], i + 1;
      }
      AfterEnd(r, rest);
    }

    method Items(n: nat) returns (r: seq<TsValue>)
      requires off <= |bytes| && ReadCells(Rest(), n).Some?
      modifies `off
      ensures off <= |bytes| && ReadCells(old(Rest()), n).value.1 == Rest()
      ensures r == TsAll(ReadCells(old(Rest()), n).value.0, round)
      decreases |Rest()|, 2
    {
      r := [];
      ghost var cells: seq<Cell> := [];
      var i := 0;
      AfterNone(ReadCells(Rest(), n));
      while i < n
        invariant i <= n && off <= |bytes| && |Rest()| <= |old(Rest())| && r == TsAll(cells, round)
        invariant ReadCells(old(Rest()), n) == After(cells, ReadCells(Rest(), n - i))
      {
        ghost var c := ReadCell(Rest()).value.0;
        CellsStep(cells, Rest(), n - i);
        var next := ReadValue();
        TsAllSnoc(cells, c, round);
        r, cells, i := r + [next], cells + [c], i + 1;
      }
      AfterEnd(cells, Rest());
    }

    method Entries(n: nat) returns (r: map<Bytes, TsValue>)
      requires off <= |bytes| && ReadEntries(Rest(), n).Some?
      modifies `off
      ensures off <= |bytes| && ReadEntries(old(Rest()), n).value.1 == Rest()
      ensures r == TsEntries(ReadEntries(old(Rest()), n).value.0, round)
      decreases |Rest()|, 2
    {
      r := map[];
      ghost var entries: seq<Entry> := [];
      var i := 0;
      AfterNone(ReadEntries(Rest(), n));
      while i < n
        invariant i <= n && off <= |bytes| && |Rest()| <= |old(Rest())| && r == TsEntries(entries, round)
        invariant ReadEntries(old(Rest()), n) == After(entries, ReadEntries(Rest(), n - i))
      {
        ghost var e := ReadEntry(Rest()).value.0;
        EntriesStep(entries, Rest(), n - i);
        var key, next := KeyAndValue();
        TsEntriesSnoc(entries, e, round);
        r, entries, i := r[key := next], entries + [e], i + 1;
      }
      AfterEnd(entries, Rest());
    }

    method KeyAndValue() returns (key: Bytes, r: TsValue)
      requires off <= |bytes| && ReadEntry(Rest()).Some?
      modifies `off
      ensures off <= |bytes| && ReadEntry(old(Rest())).value.1 == Rest()
      ensures var e := ReadEntry(old(Rest())).value.0; key == e.key && r == TsOf(e.cell, round)
      decreases |Rest()|, 1
    {
      key := Str();
      r := ReadValue();
    }

    /** One cell: its value, with the offset at its end. */
    method ReadValue() returns (r: TsValue)
      requires off <= |bytes| && ReadCell(Rest()).Some?
      modifies `off
      ensures off <= |bytes| && ReadCell(old(Rest())).value.1 == Rest()
      ensures r == TsOf(ReadCell(old(Rest())).value.0, round)
      decreases |Rest()|, 0
    {
      var tag := bytes[off];
      assert Rest()[0] == tag && Rest()[1..] == bytes[off + 1..];
      off := off + 1;
      r := Tagged(tag);
    }

    /** What follows a tag. */
    method Tagged(tag: Byte) returns (r: TsValue)
      requires off <= |bytes| && ReadTagged(tag, Rest()).Some?
      modifies `off
      ensures off <= |bytes| && ReadTagged(tag, old(Rest())).value.1 == Rest()
      ensures r == TsOf(ReadTagged(tag, old(Rest())).value.0, round)
      decreases |Rest()|, 3
    {
      if tag <= 0x06 { r := Scalar(tag); return; }
      if tag == 0x07 {
        var n := U32();
        var items := Items(n);
        return TsArray(items);
      }
      if tag == 0x08 {
        var n := U32();
        var entries := Entries(n);
        return TsObject(entries);
      }
      r := Record(tag);
    }

    method Scalar(tag: Byte) returns (r: TsValue)
      requires off <= |bytes| && tag <= 0x06 && ReadTagged(tag, Rest()).Some?
      modifies `off
      ensures off <= |bytes| && ReadTagged(tag, old(Rest())).value.1 == Rest()
      ensures r == TsOf(ReadTagged(tag, old(Rest())).value.0, round)
    {
      if tag == 0x00 { return TsNull; }
      if tag == 0x01 { return TsBool(false); }
      if tag == 0x02 { return TsBool(true); }
      if tag == 0x03 {
        var b := Raw(4);
        return TsInt(Num(Signed(FromLE(b), 4)));
      }
      if tag == 0x04 { r := LongValue(); return; }
      if tag == 0x05 {
        var bits := Raw(8);
        return TsFloat(bits);
      }
      var text := Str();
      r := TsString(text);
    }

    method LongValue() returns (r: TsValue)
      requires off <= |bytes| && ReadSigned(Rest(), 8).Some?
      modifies `off
      ensures off <= |bytes| && ReadSigned(old(Rest()), 8).value.1 == Rest()
      ensures r == TsInt(IntOf(ReadSigned(old(Rest()), 8).value.0))
    {
      assert bytes[off..][..8] == bytes[off..off + 8] && bytes[off..][8..] == bytes[off + 8..];
      var v := I64();
      r := TsInt(v);
    }

    method Record(tag: Byte) returns (r: TsValue)
      requires off <= |bytes| && tag > 0x08 && ReadTagged(tag, Rest()).Some?
      modifies `off
      ensures off <= |bytes| && ReadTagged(tag, old(Rest())).value.1 == Rest()
      ensures r == TsOf(ReadTagged(tag, old(Rest())).value.0, round)
    {
      if tag == 0x09 || tag == 0x0A {
        var id, _ := Id();
        return if tag == 0x09 then TsNode(id) else TsRelationship(id);
      }
      if tag == 0x0B { r := ReadPathCell(); return; }
      if tag <= 0x11 {
        var text := Str();
        return TsIso(tag, text);
      }
      if tag == 0x12 { r := ReadPointCell(); return; }
      if tag == 0x13 { r := ReadVectorCell(); return; }
      r := ReadBinaryCell();
    }

    method ReadPathCell() returns (r: TsValue)
      requires off <= |bytes| && ReadPath(Rest()).Some?
      modifies `off
      ensures off <= |bytes| && ReadPath(old(Rest())).value.1 == Rest()
      ensures r == TsOf(ReadPath(old(Rest())).value.0, round)
    {
      var n := U32();
      var nodes := Ids(n);
      var m := U32();
      var rels := Ids(m);
      r := TsPath(nodes, rels);
    }

    method ReadBinaryCell() returns (r: TsValue)
      requires off <= |bytes| && ReadBinary(Rest()).Some?
      modifies `off
      ensures off <= |bytes| && ReadBinary(old(Rest())).value.1 == Rest()
      ensures r == TsOf(ReadBinary(old(Rest())).value.0, round)
    {
      var n := U32();
      var segments := Segments(n);
      r := TsBinary(segments);
    }

    method ReadPointCell() returns (r: TsValue)
      requires off <= |bytes| && ReadPoint(Rest()).Some?
      modifies `off
      ensures off <= |bytes| && ReadPoint(old(Rest())).value.1 == Rest()
      ensures r == TsOf(ReadPoint(old(Rest())).value.0, round)
    {
      var hasZ := Raw(1);
      var srid := U32();
      var x := Raw(8);
      var y := Raw(8);
      if hasZ[0] == 0 { return TsPoint(srid, x, y, None); }
      var z := Raw(8);
      r := TsPoint(srid, x, y, Some(z));
    }

    method ReadVectorCell() returns (r: TsValue)
      requires off <= |bytes| && ReadVector(Rest()).Some?
      modifies `off
      ensures off <= |bytes| && ReadVector(old(Rest())).value.1 == Rest()
      ensures r == TsOf(ReadVector(old(Rest())).value.0, round)
    {
      var coord := Raw(1);
      var n := U32();
      var values := Raws(Width(coord[0]), n);
      r := TsVector(coord[0], TsComponents(coord[0], Components(coord[0], values), round));
    }
  }

  lemma {:induction false} RoundedSnoc(ids: seq<int>, id: int, round: Rounding)
    ensures Rounded(ids + [id], round) == Rounded(ids, round) + [round(id)]
  {
    if ids == [] {
      assert [] + [id] == [id] && [id][1..] == [];
    } else {
      assert (ids + [id])[1..] == ids[1..] + [id];
      RoundedSnoc(ids[1..], id, round);
    }
  }

  lemma {:induction false} TsAllSnoc(cs: seq<Cell>, c: Cell, round: Rounding)
    ensures TsAll(cs + [c], round) == TsAll(cs, round) + [TsOf(c, round)]
  {
    if cs == [] {
      assert [] + [c] == [c] && [c][1..] == [];
    } else {
      assert (cs + [c])[1..] == cs[1..] + [c];
      TsAllSnoc(cs[1..], c, round);
    }
  }

  lemma TsEntriesSnoc(es: seq<Entry>, e: Entry, round: Rounding)
    ensures TsEntries(es + [e], round) == TsEntries(es, round)[e.key := TsOf(e.cell, round)]
  {
    assert (es + [e])[..|es|] == es;
  }

  // ----- the row factory cache -----

  const SEPARATOR: Byte := 0x1F

  /** The cache key: names joined by the separator. */
  function Join(names: seq<Bytes>): Bytes {
    if names == [] then []
    else if |names| == 1 then names[0]
    else names[0] + [SEPARATOR] + Join(names[1..])
  }

  predicate Plain(names: seq<Bytes>) { forall i | 0 <= i < |names| :: SEPARATOR !in names[i] }

  lemma JoinTail(names: seq<Bytes>)
    requires |names| > 1
    ensures |Join(names)| > |names[0]| && Join(names)[|names[0]|] == SEPARATOR
    ensures Join(names)[..|names[0]|] == names[0] && Join(names)[|names[0]| + 1..] == Join(names[1..])
  {}

  /** Where the first separator is, or the end. */
  function FirstSeparator(key: Bytes): (i: nat)
    ensures i <= |key| && (i < |key| ==> key[i] == SEPARATOR)
    ensures forall k | 0 <= k < i :: key[k] != SEPARATOR
  {
    if key == [] || key[0] == SEPARATOR then 0 else 1 + FirstSeparator(key[1..])
  }

  lemma FirstName(names: seq<Bytes>)
    requires names != [] && Plain(names)
    ensures var key := Join(names); var i := FirstSeparator(key);
      i == |names[0]| && key[..i] == names[0] && (i < |key| <==> |names| > 1)
      && (|names| > 1 ==> key[i + 1..] == Join(names[1..]))
  {
    var key := Join(names);
    var i := FirstSeparator(key);
    assert SEPARATOR !in names[0];
    if |names| > 1 {
      JoinTail(names);
      assert forall k | 0 <= k < |names[0]| :: key[k] == names[0][k];
    } else {
      forall k | 0 <= k < |key| ensures key[k] != SEPARATOR { assert key[k] in names[0]; }
    }
  }

  /** Where no name holds the separator, the key tells the columns. */
  lemma {:induction false} JoinTells(a: seq<Bytes>, b: seq<Bytes>)
    requires a != [] && b != [] && Plain(a) && Plain(b) && Join(a) == Join(b)
    ensures a == b
    decreases |a|
  {
    FirstName(a);
    FirstName(b);
    assert a == [a[0]] + a[1..] && b == [b[0]] + b[1..];
    if |a| > 1 {
      assert forall k | 0 <= k < |a[1..]| :: a[1..][k] == a[k + 1];
      assert forall k | 0 <= k < |b[1..]| :: b[1..][k] == b[k + 1];
      JoinTells(a[1..], b[1..]);
    }
  }

  /** A name that holds the separator shares its key with another list. */
  lemma JoinConfuses(a: Bytes, b: Bytes)
    ensures Join([a + [SEPARATOR] + b]) == Join([a, b]) && [a + [SEPARATOR] + b] != [a, b]
  {
    assert [a, b][1..] == [b];
  }

  /** A factory is known by the columns it was built for. */
  class FactoryCache {
    var factories: map<Bytes, seq<Bytes>>

    ghost predicate Valid()
      reads this
    {
      forall key | key in factories :: factories[key] != [] && Join(factories[key]) == key
    }

    constructor ()
      ensures Valid() && factories == map[]
    {
      factories := map[];
    }

    /** The factory for `columns`: always one with the same key, and the right
        one where no name holds the separator. */
    method RowFactory(columns: seq<Bytes>) returns (factory: seq<Bytes>)
      requires Valid() && columns != []
      modifies this
      ensures Valid() && Join(factory) == Join(columns)
      ensures factory == columns <==>
        Join(columns) !in old(factories) || old(factories)[Join(columns)] == columns
      ensures Plain(columns) && (forall key | key in old(factories) :: Plain(old(factories)[key])) ==> factory == columns
      ensures factories == if Join(columns) in old(factories) then old(factories)
                           else old(factories)[Join(columns) := columns]
    {
      var key := Join(columns);
      if key in factories {
        factory := factories[key];
        if Plain(columns) && Plain(factory) { JoinTells(factory, columns); }
        return;
      }
      factories := factories[key := columns];
      factory := columns;
    }
  }
}
