/** Reading inverts writing: for every value the tag table can lay out,
    whatever bytes follow. */
module RoundTrip {
  import opened Values
  import opened Wire

  lemma Powers()
    ensures Pow256(1) == 0x100 && Pow256(2) == 0x1_0000 && Pow256(4) == U32_LIMIT
    ensures Pow256(8) == 0x1_0000_0000_0000_0000
  {
    assert Pow256(0) == 1;
    assert Pow256(1) == 256 * Pow256(0);
    assert Pow256(2) == 256 * Pow256(1);
    assert Pow256(3) == 256 * Pow256(2);
    assert Pow256(4) == 256 * Pow256(3);
    assert Pow256(5) == 256 * Pow256(4);
    assert Pow256(6) == 256 * Pow256(5);
    assert Pow256(7) == 256 * Pow256(6);
    assert Pow256(8) == 256 * Pow256(7);
  }

  lemma TakeFront(a: Bytes, rest: Bytes)
    ensures Take(a + rest, |a|) == Some((a, rest))
  {
    assert (a + rest)[..|a|] == a && (a + rest)[|a|..] == rest;
  }

  lemma U32Back(n: nat, rest: Bytes)
    requires n < U32_LIMIT
    ensures ReadU32(WriteU32(n) + rest) == Some((n, rest))
  {
    Powers();
    TakeFront(LE(n, 4), rest);
    LERoundTrip(n, 4);
  }

  lemma SignedBack(v: int, k: nat, rest: Bytes)
    requires FitsSigned(v, k)
    ensures ReadSigned(LE(Unsigned(v, k), k) + rest, k) == Some((v, rest))
  {
    SignedRoundTrip(v, k);
    TakeFront(LE(Unsigned(v, k), k), rest);
    LERoundTrip(Unsigned(v, k), k);
  }

  lemma TextBack(text: Bytes, rest: Bytes)
    requires |text| < U32_LIMIT
    ensures ReadText(WriteText(text) + rest) == Some((text, rest))
  {
    assert WriteText(text) + rest == WriteU32(|text|) + (text + rest);
    U32Back(|text|, text + rest);
    TakeFront(text, rest);
  }

  lemma {:induction false} IdsBack(ids: seq<int>, rest: Bytes)
    requires forall i | 0 <= i < |ids| :: FitsSigned(ids[i], 8)
    ensures ReadIds(WriteIds(ids) + rest, |ids|) == Some((ids, rest))
  {
    if ids == [] {
      assert [] + rest == rest;
    } else {
      assert WriteIds(ids) + rest == WriteI64(ids[0]) + (WriteIds(ids[1..]) + rest);
      SignedBack(ids[0], 8, WriteIds(ids[1..]) + rest);
      IdsBack(ids[1..], rest);
      assert ids == [ids[0]] + ids[1..];
    }
  }

  lemma {:induction false} RawsBack(values: seq<Bytes>, width: nat, rest: Bytes)
    requires forall i | 0 <= i < |values| :: |values[i]| == width
    ensures ReadRaws(Joined(values) + rest, width, |values|) == Some((values, rest))
  {
    if values == [] {
      assert [] + rest == rest;
    } else {
      assert Joined(values) + rest == values[0] + (Joined(values[1..]) + rest);
      TakeFront(values[0], Joined(values[1..]) + rest);
      RawsBack(values[1..], width, rest);
      assert values == [values[0]] + values[1..];
    }
  }

  lemma {:induction false} SegmentsBack(segments: seq<Bytes>, rest: Bytes)
    requires forall i | 0 <= i < |segments| :: |segments[i]| < U32_LIMIT
    ensures ReadSegments(WriteSegments(segments) + rest, |segments|) == Some((segments, rest))
  {
    if segments == [] {
      assert [] + rest == rest;
    } else {
      assert WriteSegments(segments) + rest == WriteText(segments[0]) + (WriteSegments(segments[1..]) + rest);
      TextBack(segments[0], WriteSegments(segments[1..]) + rest);
      SegmentsBack(segments[1..], rest);
      assert segments == [segments[0]] + segments[1..];
    }
  }

  // Each of these reads a record part by part, whatever bytes its parts are.

  lemma PathParts(a: Bytes, b: Bytes, c: Bytes, d: Bytes, nodes: seq<int>, rels: seq<int>, rest: Bytes)
    requires ReadU32(a + (b + (c + (d + rest)))) == Some((|nodes|, b + (c + (d + rest))))
    requires ReadIds(b + (c + (d + rest)), |nodes|) == Some((nodes, c + (d + rest)))
    requires ReadU32(c + (d + rest)) == Some((|rels|, d + rest))
    requires ReadIds(d + rest, |rels|) == Some((rels, rest))
    ensures ReadPath((a + (b + (c + d))) + rest) == Some((PathCell(nodes, rels), rest))
  {
    assert (a + (b + (c + d))) + rest == a + (b + (c + (d + rest)));
  }

  lemma PathBack(nodes: seq<int>, rels: seq<int>, rest: Bytes)
    requires IdsFit(nodes) && IdsFit(rels)
    ensures ReadPath((WriteU32(|nodes|) + (WriteIds(nodes) + (WriteU32(|rels|) + WriteIds(rels)))) + rest)
         == Some((PathCell(nodes, rels), rest))
  {
    var a, b, c, d := WriteU32(|nodes|), WriteIds(nodes), WriteU32(|rels|), WriteIds(rels);
    U32Back(|nodes|, b + (c + (d + rest)));
    IdsBack(nodes, c + (d + rest));
    U32Back(|rels|, d + rest);
    IdsBack(rels, rest);
    PathParts(a, b, c, d, nodes, rels, rest);
  }

  lemma PointParts(flag: Byte, b: Bytes, srid: nat, x: Bytes, y: Bytes, z: Option<Bytes>, rest: Bytes)
    requires |x| == 8 && |y| == 8 && (z.Some? ==> |z.value| == 8) && (flag == 0 <==> z.None?)
    requires var third := if z.Some? then z.value else [];
      ReadU32(b + (x + (y + (third + rest)))) == Some((srid, x + (y + (third + rest))))
    ensures var third := if z.Some? then z.value else [];
      ReadPoint(([flag] + (b + (x + (y + third)))) + rest) == Some((Point(srid, x, y, z), rest))
  {
    var third := if z.Some? then z.value else [];
    var s1 := x + (y + (third + rest));
    assert ([flag] + (b + (x + (y + third)))) + rest == [flag] + (b + s1);
    TakeFront([flag], b + s1);
    TakeFront(x, y + (third + rest));
    TakeFront(y, third + rest);
    if z.Some? { TakeFront(z.value, rest); } else { assert third + rest == rest; }
  }

  lemma PointBack(srid: nat, x: Bytes, y: Bytes, z: Option<Bytes>, rest: Bytes)
    requires Fits(Point(srid, x, y, z))
    ensures ReadPoint(([if z.Some? then 1 else 0]
                       + (WriteU32(srid) + (x + (y + (if z.Some? then z.value else []))))) + rest)
         == Some((Point(srid, x, y, z), rest))
  {
    var third := if z.Some? then z.value else [];
    U32Back(srid, x + (y + (third + rest)));
    PointParts(if z.Some? then 1 else 0, WriteU32(srid), srid, x, y, z, rest);
  }

  lemma VectorStages(s: Bytes, coord: Byte, s0: Bytes, s1: Bytes, values: seq<Bytes>, rest: Bytes)
    requires coord <= 5 && Take(s, 1) == Some(([coord], s0))
    requires ReadU32(s0) == Some((|values|, s1))
    requires ReadRaws(s1, Width(coord), |values|) == Some((values, rest))
    ensures ReadVector(s) == Some((Vector(coord, values), rest))
  {}

  lemma VectorParts(coord: Byte, b: Bytes, c: Bytes, values: seq<Bytes>, rest: Bytes)
    requires coord <= 5 && ReadU32(b + (c + rest)) == Some((|values|, c + rest))
    requires ReadRaws(c + rest, Width(coord), |values|) == Some((values, rest))
    ensures ReadVector(([coord] + (b + c)) + rest) == Some((Vector(coord, values), rest))
  {
    var first: Bytes, s0 := [coord], b + (c + rest);
    Regroup(first, b, c, rest);
    TakeFront(first, s0);
    VectorStages(first + s0, coord, s0, c + rest, values, rest);
  }

  lemma Regroup(a: Bytes, b: Bytes, c: Bytes, d: Bytes)
    ensures (a + (b + c)) + d == a + (b + (c + d))
  {}

  lemma VectorBack(coord: Byte, values: seq<Bytes>, rest: Bytes)
    requires Fits(Vector(coord, values))
    ensures ReadVector(([coord] + (WriteU32(|values|) + Joined(values))) + rest)
         == Some((Vector(coord, values), rest))
  {
    U32Back(|values|, Joined(values) + rest);
    RawsBack(values, Width(coord), rest);
    VectorParts(coord, WriteU32(|values|), Joined(values), values, rest);
  }

  lemma BinaryParts(b: Bytes, c: Bytes, segments: seq<Bytes>, rest: Bytes)
    requires ReadU32(b + (c + rest)) == Some((|segments|, c + rest))
    requires ReadSegments(c + rest, |segments|) == Some((segments, rest))
    ensures ReadBinary((b + c) + rest) == Some((Binary(segments), rest))
  {
    assert (b + c) + rest == b + (c + rest);
  }

  lemma BinaryBack(segments: seq<Bytes>, rest: Bytes)
    requires Fits(Binary(segments))
    ensures ReadBinary((WriteU32(|segments|) + WriteSegments(segments)) + rest) == Some((Binary(segments), rest))
  {
    U32Back(|segments|, WriteSegments(segments) + rest);
    SegmentsBack(segments, rest);
    BinaryParts(WriteU32(|segments|), WriteSegments(segments), segments, rest);
  }

  /** A count and its cells, or its entries. */
  lemma CountedParts(b: Bytes, c: Bytes, n: nat, rest: Bytes)
    requires ReadU32(b + (c + rest)) == Some((n, c + rest))
    ensures ReadU32((b + c) + rest) == Some((n, c + rest))
  {
    assert (b + c) + rest == b + (c + rest);
  }

  /** A cell is read by its tag. */
  lemma ByTag(tag: Byte, body: Bytes, rest: Bytes)
    ensures ([tag] + body) + rest == [tag] + (body + rest)
    ensures (([tag] + body) + rest)[0] == tag && (([tag] + body) + rest)[1..] == body + rest
  {}

  lemma SmallBack(c: Cell, rest: Bytes)
    requires Fits(c) && (c.NullCell? || c.BoolCell?)
    ensures ReadCell(Write(c) + rest) == Some((c, rest))
  {
    ByTag(Write(c)[0], [], rest);
    assert [Write(c)[0]] + [] == Write(c) && [] + rest == rest;
  }

  lemma NumberBack(c: Cell, rest: Bytes)
    requires Fits(c) && (c.Int32? || c.Int64? || c.Node? || c.Relationship?)
    ensures ReadCell(Write(c) + rest) == Some((c, rest))
  {
    match c
    case Int32(v) => SignedBack(v, 4, rest); ByTag(0x03, LE(Unsigned(v, 4), 4), rest);
    case Int64(v) => SignedBack(v, 8, rest); ByTag(0x04, WriteI64(v), rest);
    case Node(id) => SignedBack(id, 8, rest); ByTag(0x09, WriteI64(id), rest);
    case Relationship(id) => SignedBack(id, 8, rest); ByTag(0x0A, WriteI64(id), rest);
  }

  lemma BytesBack(c: Cell, rest: Bytes)
    requires Fits(c) && (c.Float? || c.TextCell? || c.Iso?)
    ensures ReadCell(Write(c) + rest) == Some((c, rest))
  {
    match c
    case Float(bits) => TakeFront(bits, rest); ByTag(0x05, bits, rest);
    case TextCell(text) => TextBack(text, rest); ByTag(0x06, WriteText(text), rest);
    case Iso(kind, text) => TextBack(text, rest); ByTag(kind, WriteText(text), rest);
  }

  lemma RecordBack(c: Cell, rest: Bytes)
    requires Fits(c) && (c.PathCell? || c.Point? || c.Vector? || c.Binary?)
    ensures ReadCell(Write(c) + rest) == Some((c, rest))
  {
    match c
    case PathCell(nodes, rels) =>
      PathBack(nodes, rels, rest);
      ByTag(0x0B, WriteU32(|nodes|) + (WriteIds(nodes) + (WriteU32(|rels|) + WriteIds(rels))), rest);
    case Point(srid, x, y, z) =>
      PointBack(srid, x, y, z, rest);
      ByTag(0x12, [if z.Some? then 1 else 0]
                  + (WriteU32(srid) + (x + (y + (if z.Some? then z.value else [])))), rest);
    case Vector(coord, values) =>
      VectorBack(coord, values, rest);
      ByTag(0x13, [coord] + (WriteU32(|values|) + Joined(values)), rest);
    case Binary(segments) =>
      BinaryBack(segments, rest);
      ByTag(0x14, WriteU32(|segments|) + WriteSegments(segments), rest);
  }

  /** Every value reads back as itself, and reading stops at its end. */
  lemma {:induction false} CellBack(c: Cell, rest: Bytes)
    requires Fits(c)
    ensures ReadCell(Write(c) + rest) == Some((c, rest))
    decreases c, 1
  {
    if c.ListCell? {
      ListBack(c.items, rest);
    } else if c.MapCell? {
      MapBack(c.entries, rest);
    } else if c.NullCell? || c.BoolCell? {
      SmallBack(c, rest);
    } else if c.Int32? || c.Int64? || c.Node? || c.Relationship? {
      NumberBack(c, rest);
    } else if c.Float? || c.TextCell? || c.Iso? {
      BytesBack(c, rest);
    } else {
      RecordBack(c, rest);
    }
  }

  lemma {:induction false} ListBack(items: seq<Cell>, rest: Bytes)
    requires Fits(ListCell(items))
    ensures ReadCell(Write(ListCell(items)) + rest) == Some((ListCell(items), rest))
    decreases items, 1
  {
    CellsBack(items, rest);
    U32Back(|items|, WriteAll(items) + rest);
    CountedParts(WriteU32(|items|), WriteAll(items), |items|, rest);
    ByTag(0x07, WriteU32(|items|) + WriteAll(items), rest);
  }

  lemma {:induction false} MapBack(entries: seq<Entry>, rest: Bytes)
    requires Fits(MapCell(entries))
    ensures ReadCell(Write(MapCell(entries)) + rest) == Some((MapCell(entries), rest))
    decreases entries, 1
  {
    EntriesBack(entries, rest);
    U32Back(|entries|, WriteEntries(entries) + rest);
    CountedParts(WriteU32(|entries|), WriteEntries(entries), |entries|, rest);
    ByTag(0x08, WriteU32(|entries|) + WriteEntries(entries), rest);
  }

  lemma {:induction false} CellsBack(cs: seq<Cell>, rest: Bytes)
    requires AllFit(cs)
    ensures ReadCells(WriteAll(cs) + rest, |cs|) == Some((cs, rest))
    decreases cs, 0
  {
    if cs == [] {
      assert [] + rest == rest;
    } else {
      assert WriteAll(cs) + rest == Write(cs[0]) + (WriteAll(cs[1..]) + rest);
      CellBack(cs[0], WriteAll(cs[1..]) + rest);
      CellsBack(cs[1..], rest);
      assert cs == [cs[0]] + cs[1..];
    }
  }

  lemma {:induction false} EntriesBack(es: seq<Entry>, rest: Bytes)
    requires EntriesFit(es)
    ensures ReadEntries(WriteEntries(es) + rest, |es|) == Some((es, rest))
    decreases es, 0
  {
    if es == [] {
      assert [] + rest == rest;
    } else {
      var Entry(key, cell) := es[0];
      assert cell < es[0];
      var after := WriteEntries(es[1..]) + rest;
      assert WriteEntries(es) + rest == WriteText(key) + (Write(cell) + after);
      TextBack(key, Write(cell) + after);
      CellBack(cell, after);
      EntriesBack(es[1..], rest);
      assert es == [es[0]] + es[1..];
    }
  }
}
