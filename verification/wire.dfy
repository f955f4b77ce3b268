/** The binary result format: its layout, and the one way to read it back. */
module Wire {
  import opened Values

  type Byte = b: int | 0 <= b < 256
  type Bytes = seq<Byte>

  // ----- little-endian integers -----

  function Pow256(k: nat): (p: nat)
    ensures p >= 1
  {
    if k == 0 then 1 else 256 * Pow256(k - 1)
  }

  function LE(n: nat, k: nat): (b: Bytes)
    ensures |b| == k
  {
    if k == 0 then [] else [n % 256] + LE(n / 256, k - 1)
  }

  function FromLE(b: Bytes): nat {
    if b == [] then 0 else b[0] + 256 * FromLE(b[1..])
  }

  lemma {:induction false} FromLEBelow(b: Bytes)
    ensures FromLE(b) < Pow256(|b|)
  {
    if b != [] { FromLEBelow(b[1..]); }
  }

  lemma {:induction false} LERoundTrip(n: nat, k: nat)
    requires n < Pow256(k)
    ensures FromLE(LE(n, k)) == n
  {
    if k > 0 {
      LERoundTrip(n / 256, k - 1);
      assert LE(n, k)[1..] == LE(n / 256, k - 1);
    }
  }

  /** The least significant byte comes first. */
  lemma {:induction false} LEByte(n: nat, k: nat, i: nat)
    requires i < k
    ensures LE(n, k)[i] == (n / Pow256(i)) % 256
  {
    if i > 0 {
      LEByte(n / 256, k - 1, i - 1);
      DivTwice(n, Pow256(i - 1));
    }
  }

  lemma DivTwice(n: nat, p: nat)
    requires p > 0
    ensures (n / 256) / p == n / (256 * p)
  {
    var q, r := (n / 256) / p, (n / 256) % p;
    assert n == 256 * (q * p + r) + n % 256;
    assert n == (256 * p) * q + (256 * r + n % 256);
    assert 256 * r + n % 256 < 256 * p;
    DivIs(n, 256 * p, q, 256 * r + n % 256);
  }

  lemma DivIs(n: int, d: nat, q: int, r: nat)
    requires n == d * q + r && r < d
    ensures n / d == q && n % d == r
  {
    Multiples(d, n / d + 1, q);
    Multiples(d, q + 1, n / d);
  }

  lemma Multiples(d: nat, a: int, b: int)
    ensures a <= b ==> d * a <= d * b
  {}

  lemma {:induction false} FromLERoundTrip(b: Bytes)
    ensures LE(FromLE(b), |b|) == b
  {
    if b != [] {
      FromLERoundTrip(b[1..]);
      assert b == [b[0]] + b[1..];
    }
  }

  /** Two's complement in `k` bytes. */
  function Signed(n: nat, k: nat): int { if 2 * n >= Pow256(k) then n - Pow256(k) else n }

  function Unsigned(v: int, k: nat): nat
    requires FitsSigned(v, k)
  {
    if v < 0 then v + Pow256(k) else v
  }

  predicate FitsSigned(v: int, k: nat) { 0 - Pow256(k) <= 2 * v < Pow256(k) }

  lemma SignedRoundTrip(v: int, k: nat)
    requires FitsSigned(v, k)
    ensures Unsigned(v, k) < Pow256(k) && Signed(Unsigned(v, k), k) == v
  {}

  /** Two's complement: the number modulo the values of `k` bytes. */
  lemma TwosComplement(v: int, k: nat)
    requires FitsSigned(v, k)
    ensures Unsigned(v, k) == v % Pow256(k)
  {
    DivIs(v, Pow256(k), if v < 0 then -1 else 0, Unsigned(v, k));
  }

  // ----- cells -----

  datatype Entry = Entry(key: Bytes, cell: Cell)

  /** What a cell carries. Text is its UTF-8 bytes and a float its eight
      bytes, both uninterpreted; `Iso` is a temporal value by its tag. */
  datatype Cell =
    | NullCell
    | BoolCell(flag: bool)
    | Int32(number: int)
    | Int64(number: int)
    | Float(bits: Bytes)
    | TextCell(text: Bytes)
    | ListCell(items: seq<Cell>)
    | MapCell(entries: seq<Entry>)
    | Node(id: int)
    | Relationship(id: int)
    | PathCell(nodes: seq<int>, rels: seq<int>)
    | Iso(kind: Byte, text: Bytes)
    | Point(srid: nat, x: Bytes, y: Bytes, z: Option<Bytes>)
    | Vector(coord: Byte, values: seq<Bytes>)
    | Binary(segments: seq<Bytes>)

  const U32_LIMIT: nat := 0x1_0000_0000

  /** Bytes a value of a vector takes, by coordinate type. */
  function Width(coord: int): nat {
    if coord == 0 || coord == 2 then 8
    else if coord == 1 || coord == 3 then 4
    else if coord == 4 then 2
    else 1
  }

  /** A vector's value as a reader sees it: a float's bytes, or an integer. */
  datatype Component = FloatBits(bits: Bytes) | Whole(number: int)

  /** Coordinate types 0 and 1 are floats, 2 to 5 two's complement integers. */
  function Components(coord: int, values: seq<Bytes>): (cs: seq<Component>)
    ensures |cs| == |values|
  {
    if values == [] then []
    else
      var first := if coord < 2 then FloatBits(values[0]) else Whole(Signed(FromLE(values[0]), Width(coord)));
      [first] + Components(coord, values[1..])
  }

  /** How integers are laid out as vector values. */
  function Laid(coord: int, ns: seq<int>): (values: seq<Bytes>)
    requires forall i | 0 <= i < |ns| :: FitsSigned(ns[i], Width(coord))
    ensures |values| == |ns|
  {
    if ns == [] then [] else [LE(Unsigned(ns[0], Width(coord)), Width(coord))] + Laid(coord, ns[1..])
  }

  /** Integer components read back, at every width. */
  lemma {:induction false} ComponentsBack(coord: int, ns: seq<int>)
    requires 2 <= coord <= 5 && forall i | 0 <= i < |ns| :: FitsSigned(ns[i], Width(coord))
    ensures forall i | 0 <= i < |ns| :: Components(coord, Laid(coord, ns))[i] == Whole(ns[i])
  {
    if ns != [] {
      var k := Width(coord);
      SignedRoundTrip(ns[0], k);
      LERoundTrip(Unsigned(ns[0], k), k);
      ComponentsBack(coord, ns[1..]);
      assert Laid(coord, ns)[1..] == Laid(coord, ns[1..]);
    }
  }

  /** What the tag table can lay out. */
  predicate Fits(c: Cell)
    decreases c, 0
  {
    match c
    case Int32(v) => FitsSigned(v, 4)
    case Int64(v) => FitsSigned(v, 8)
    case Float(bits) => |bits| == 8
    case TextCell(text) => |text| < U32_LIMIT
    case ListCell(items) => |items| < U32_LIMIT && AllFit(items)
    case MapCell(entries) => |entries| < U32_LIMIT && EntriesFit(entries)
    case Node(id) => FitsSigned(id, 8)
    case Relationship(id) => FitsSigned(id, 8)
    case PathCell(nodes, rels) => IdsFit(nodes) && IdsFit(rels)
    case Iso(kind, text) => 0x0C <= kind <= 0x11 && |text| < U32_LIMIT
    case Point(srid, x, y, z) =>
      srid < U32_LIMIT && |x| == 8 && |y| == 8 && (z.Some? ==> |z.value| == 8)
    case Vector(coord, values) =>
      coord <= 5 && |values| < U32_LIMIT && forall i | 0 <= i < |values| :: |values[i]| == Width(coord)
    case Binary(segments) =>
      |segments| < U32_LIMIT && forall i | 0 <= i < |segments| :: |segments[i]| < U32_LIMIT
    case _ => true
  }

  predicate IdsFit(ids: seq<int>) {
    |ids| < U32_LIMIT && forall i | 0 <= i < |ids| :: FitsSigned(ids[i], 8)
  }

  predicate AllFit(cs: seq<Cell>)
    decreases cs, 0
  {
    cs == [] || (Fits(cs[0]) && AllFit(cs[1..]))
  }

  predicate EntriesFit(es: seq<Entry>)
    decreases es, 0
  {
    es == [] ||
    (var Entry(key, cell) := es[0];
     assert cell < es[0];
     |key| < U32_LIMIT && Fits(cell) && EntriesFit(es[1..]))
  }

  // ----- writing -----

  function WriteU32(n: nat): Bytes { LE(n, 4) }

  function WriteText(text: Bytes): Bytes { WriteU32(|text|) + text }

  function WriteI64(v: int): Bytes
    requires FitsSigned(v, 8)
  {
    LE(Unsigned(v, 8), 8)
  }

  function WriteIds(ids: seq<int>): Bytes
    requires forall i | 0 <= i < |ids| :: FitsSigned(ids[i], 8)
  {
    if ids == [] then [] else WriteI64(ids[0]) + WriteIds(ids[1..])
  }

  function Joined(parts: seq<Bytes>): Bytes {
    if parts == [] then [] else parts[0] + Joined(parts[1..])
  }

  function WriteSegments(segments: seq<Bytes>): Bytes {
    if segments == [] then [] else WriteText(segments[0]) + WriteSegments(segments[1..])
  }

  function Write(c: Cell): Bytes
    requires Fits(c)
    decreases c, 0
  {
    match c
    case NullCell => [0x00]
    case BoolCell(b) => [if b then 0x02 else 0x01]
    case Int32(v) => [0x03] + LE(Unsigned(v, 4), 4)
    case Int64(v) => [0x04] + WriteI64(v)
    case Float(bits) => [0x05] + bits
    case TextCell(text) => [0x06] + WriteText(text)
    case ListCell(items) => [0x07] + (WriteU32(|items|) + WriteAll(items))
    case MapCell(entries) => [0x08] + (WriteU32(|entries|) + WriteEntries(entries))
    case Node(id) => [0x09] + WriteI64(id)
    case Relationship(id) => [0x0A] + WriteI64(id)
    case PathCell(nodes, rels) =>
      [0x0B] + (WriteU32(|nodes|) + (WriteIds(nodes) + (WriteU32(|rels|) + WriteIds(rels))))
    case Iso(kind, text) => [kind] + WriteText(text)
    case Point(srid, x, y, z) =>
      [0x12] + ([if z.Some? then 1 else 0]
                + (WriteU32(srid) + (x + (y + (if z.Some? then z.value else [])))))
    case Vector(coord, values) => [0x13] + ([coord] + (WriteU32(|values|) + Joined(values)))
    case Binary(segments) => [0x14] + (WriteU32(|segments|) + WriteSegments(segments))
  }

  function WriteAll(cs: seq<Cell>): Bytes
    requires AllFit(cs)
    decreases cs, 0
  {
    if cs == [] then [] else Write(cs[0]) + WriteAll(cs[1..])
  }

  function WriteEntries(es: seq<Entry>): Bytes
    requires EntriesFit(es)
    decreases es, 0
  {
    if es == [] then []
    else
      var Entry(key, cell) := es[0];
      assert cell < es[0];
      WriteText(key) + (Write(cell) + WriteEntries(es[1..]))
  }

  // ----- reading -----

  /** A value read and the bytes after it, or `None` past the end or on an
      unknown tag. */
  type Read<T> = Option<(T, Bytes)>

  function Take(s: Bytes, n: nat): (r: Read<Bytes>)
    ensures r.Some? ==> |r.value.1| == |s| - n
  {
    if n <= |s| then Some((s[..n], s[n..])) else None
  }

  function ReadU32(s: Bytes): (r: Read<nat>)
    ensures r.Some? ==> |r.value.1| == |s| - 4
  {
    match Take(s, 4) case None => None case Some((b, rest)) => Some((FromLE(b), rest))
  }

  function ReadSigned(s: Bytes, k: nat): (r: Read<int>)
    ensures r.Some? ==> |r.value.1| == |s| - k
  {
    match Take(s, k) case None => None case Some((b, rest)) => Some((Signed(FromLE(b), k), rest))
  }

  function ReadText(s: Bytes): (r: Read<Bytes>)
    ensures r.Some? ==> |r.value.1| < |s|
  {
    match ReadU32(s) case None => None case Some((n, rest)) => Take(rest, n)
  }

  function ReadIds(s: Bytes, n: nat): (r: Read<seq<int>>)
    ensures r.Some? ==> |r.value.1| <= |s|
    decreases n
  {
    if n == 0 then Some(([], s))
    else match ReadSigned(s, 8)
      case None => None
      case Some((id, rest)) =>
        match ReadIds(rest, n - 1) case None => None case Some((ids, after)) => Some(([id] + ids, after))
  }

  function ReadRaws(s: Bytes, width: nat, n: nat): (r: Read<seq<Bytes>>)
    ensures r.Some? ==> |r.value.1| <= |s|
    decreases n
  {
    if n == 0 then Some(([], s))
    else match Take(s, width)
      case None => None
      case Some((raw, rest)) =>
        match ReadRaws(rest, width, n - 1)
        case None => None
        case Some((raws, after)) => Some(([raw] + raws, after))
  }

  function ReadSegments(s: Bytes, n: nat): (r: Read<seq<Bytes>>)
    ensures r.Some? ==> |r.value.1| <= |s|
    decreases n
  {
    if n == 0 then Some(([], s))
    else match ReadText(s)
      case None => None
      case Some((segment, rest)) =>
        match ReadSegments(rest, n - 1)
        case None => None
        case Some((segments, after)) => Some(([segment] + segments, after))
  }

  function ReadPath(s: Bytes): (r: Read<Cell>)
    ensures r.Some? ==> |r.value.1| < |s|
  {
    match ReadU32(s)
    case None => None
    case Some((n, s1)) =>
      match ReadIds(s1, n)
      case None => None
      case Some((nodes, s2)) =>
        match ReadU32(s2)
        case None => None
        case Some((m, s3)) =>
          match ReadIds(s3, m)
          case None => None
          case Some((rels, s4)) => Some((PathCell(nodes, rels), s4))
  }

  function ReadPoint(s: Bytes): (r: Read<Cell>)
    ensures r.Some? ==> |r.value.1| < |s|
  {
    match Take(s, 1)
    case None => None
    case Some((hasZ, s0)) =>
      match ReadU32(s0)
      case None => None
      case Some((srid, s1)) =>
        match Take(s1, 8)
        case None => None
        case Some((x, s2)) =>
          match Take(s2, 8)
          case None => None
          case Some((y, s3)) =>
            if hasZ[0] == 0 then Some((Point(srid, x, y, None), s3))
            else match Take(s3, 8)
              case None => None
              case Some((z, s4)) => Some((Point(srid, x, y, Some(z)), s4))
  }

  function ReadVector(s: Bytes): (r: Read<Cell>)
    ensures r.Some? ==> |r.value.1| < |s|
  {
    match Take(s, 1)
    case None => None
    case Some((coord, s0)) =>
      match ReadU32(s0)
      case None => None
      case Some((n, s1)) =>
        if coord[0] > 5 then None
        else match ReadRaws(s1, Width(coord[0]), n)
          case None => None
          case Some((values, s2)) => Some((Vector(coord[0], values), s2))
  }

  function ReadBinary(s: Bytes): (r: Read<Cell>)
    ensures r.Some? ==> |r.value.1| < |s|
  {
    match ReadU32(s)
    case None => None
    case Some((n, rest)) =>
      match ReadSegments(rest, n)
      case None => None
      case Some((segments, after)) => Some((Binary(segments), after))
  }

  function Mapped<T>(r: Read<T>, f: T -> Cell): Read<Cell> {
    match r case None => None case Some((v, rest)) => Some((f(v), rest))
  }

  function ReadCell(s: Bytes): (r: Read<Cell>)
    ensures r.Some? ==> |r.value.1| < |s|
    decreases |s|, 0, 0
  {
    if s == [] then None else ReadTagged(s[0], s[1..])
  }

  /** What a tag says of the bytes after it. */
  function ReadTagged(tag: Byte, p: Bytes): (r: Read<Cell>)
    ensures r.Some? ==> |r.value.1| <= |p|
    decreases |p|, 2, 0
  {
    if tag == 0x00 then Some((NullCell, p))
    else if tag == 0x01 then Some((BoolCell(false), p))
    else if tag == 0x02 then Some((BoolCell(true), p))
    else if tag == 0x03 then Mapped(ReadSigned(p, 4), v => Int32(v))
    else if tag == 0x04 then Mapped(ReadSigned(p, 8), v => Int64(v))
    else if tag == 0x05 then Mapped(Take(p, 8), b => Float(b))
    else if tag == 0x06 then Mapped(ReadText(p), t => TextCell(t))
    else if tag == 0x07 then
      match ReadU32(p)
      case None => None
      case Some((n, rest)) => Mapped(ReadCells(rest, n), cs => ListCell(cs))
    else if tag == 0x08 then
      match ReadU32(p)
      case None => None
      case Some((n, rest)) => Mapped(ReadEntries(rest, n), es => MapCell(es))
    else if tag == 0x09 then Mapped(ReadSigned(p, 8), id => Node(id))
    else if tag == 0x0A then Mapped(ReadSigned(p, 8), id => Relationship(id))
    else if tag == 0x0B then ReadPath(p)
    else if tag <= 0x11 then Mapped(ReadText(p), t => Iso(tag, t))
    else if tag == 0x12 then ReadPoint(p)
    else if tag == 0x13 then ReadVector(p)
    else if tag == 0x14 then ReadBinary(p)
    else None
  }

  function ReadCells(s: Bytes, n: nat): (r: Read<seq<Cell>>)
    ensures r.Some? ==> |r.value.1| <= |s|
    decreases |s|, 1, n
  {
    if n == 0 then Some(([], s))
    else match ReadCell(s)
      case None => None
      case Some((c, rest)) =>
        match ReadCells(rest, n - 1) case None => None case Some((cs, after)) => Some(([c] + cs, after))
  }

  function ReadEntry(s: Bytes): (r: Read<Entry>)
    ensures r.Some? ==> |r.value.1| < |s|
    decreases |s|, 0, 0
  {
    match ReadText(s)
    case None => None
    case Some((key, rest)) =>
      match ReadCell(rest) case None => None case Some((c, after)) => Some((Entry(key, c), after))
  }

  function ReadEntries(s: Bytes, n: nat): (r: Read<seq<Entry>>)
    ensures r.Some? ==> |r.value.1| <= |s|
    decreases |s|, 1, n
  {
    if n == 0 then Some(([], s))
    else match ReadEntry(s)
      case None => None
      case Some((e, rest)) =>
        match ReadEntries(rest, n - 1) case None => None case Some((es, after)) => Some(([e] + es, after))
  }

  // ----- reading in a loop -----

  /** `first` read before what `more` reads. */
  function After<T>(first: seq<T>, more: Read<seq<T>>): Read<seq<T>> {
    match more case None => None case Some((rest, s)) => Some((first + rest, s))
  }

  lemma AfterNone<T>(more: Read<seq<T>>)
    ensures After([], more) == more
  {
    if more.Some? { assert [] + more.value.0 == more.value.0; }
  }

  lemma AfterOne<T>(first: seq<T>, next: T, more: Read<seq<T>>)
    ensures After(first, After([next], more)) == After(first + [next], more)
  {
    if more.Some? { assert first + ([next] + more.value.0) == first + [next] + more.value.0; }
  }

  lemma AfterEnd<T>(first: seq<T>, s: Bytes)
    ensures After(first, Some(([], s))) == Some((first, s))
  {
    assert first + [] == first;
  }

  lemma CellsStep(first: seq<Cell>, s: Bytes, n: nat)
    requires n > 0
    ensures match ReadCell(s)
      case None => ReadCells(s, n).None?
      case Some((c, rest)) =>
        After(first, ReadCells(s, n)) == After(first + [c], ReadCells(rest, n - 1))
  {
    if ReadCell(s).Some? {
      var (c, rest) := ReadCell(s).value;
      AfterOne(first, c, ReadCells(rest, n - 1));
    }
  }

  lemma EntriesStep(first: seq<Entry>, s: Bytes, n: nat)
    requires n > 0
    ensures match ReadEntry(s)
      case None => ReadEntries(s, n).None?
      case Some((e, rest)) =>
        After(first, ReadEntries(s, n)) == After(first + [e], ReadEntries(rest, n - 1))
  {
    if ReadEntry(s).Some? {
      var (e, rest) := ReadEntry(s).value;
      AfterOne(first, e, ReadEntries(rest, n - 1));
    }
  }

  lemma IdsStep(first: seq<int>, s: Bytes, n: nat)
    requires n > 0
    ensures match ReadSigned(s, 8)
      case None => ReadIds(s, n).None?
      case Some((id, rest)) =>
        After(first, ReadIds(s, n)) == After(first + [id], ReadIds(rest, n - 1))
  {
    if ReadSigned(s, 8).Some? {
      var (id, rest) := ReadSigned(s, 8).value;
      AfterOne(first, id, ReadIds(rest, n - 1));
    }
  }

  lemma RawsStep(first: seq<Bytes>, s: Bytes, width: nat, n: nat)
    requires n > 0
    ensures match Take(s, width)
      case None => ReadRaws(s, width, n).None?
      case Some((raw, rest)) =>
        After(first, ReadRaws(s, width, n)) == After(first + [raw], ReadRaws(rest, width, n - 1))
  {
    if Take(s, width).Some? {
      var (raw, rest) := Take(s, width).value;
      AfterOne(first, raw, ReadRaws(rest, width, n - 1));
    }
  }

  lemma SegmentsStep(first: seq<Bytes>, s: Bytes, n: nat)
    requires n > 0
    ensures match ReadText(s)
      case None => ReadSegments(s, n).None?
      case Some((segment, rest)) =>
        After(first, ReadSegments(s, n)) == After(first + [segment], ReadSegments(rest, n - 1))
  {
    if ReadText(s).Some? {
      var (segment, rest) := ReadText(s).value;
      AfterOne(first, segment, ReadSegments(rest, n - 1));
    }
  }
}
