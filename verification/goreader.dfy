/** The Go reader of the result format: an offset that advances over the
    buffer, loops that fill slices and maps. */
module GoReaders {
  import opened Values
  import opened Wire
  import opened RoundTrip

  /** What the reader returns; the other records as the cell they come from,
      with text, floats and ids as read. */
  datatype GoValue =
    | Nil
    | GoBool(flag: bool)
    | GoInt(number: int)
    | GoFloat(bits: Bytes)
    | GoString(text: Bytes)
    | GoSlice(items: seq<GoValue>)
    | GoMap(entries: map<Bytes, GoValue>)
    | GoNode(id: int)
    | GoRelationship(id: int)
    | GoPath(nodes: seq<int>, rels: seq<int>)
    | GoIso(kind: Byte, text: Bytes)
    | GoPoint(srid: nat, x: Bytes, y: Bytes, z: Option<Bytes>)
    | GoVector(coord: Byte, values: seq<Component>)
    | GoBinary(segments: seq<Bytes>)

  function GoOf(c: Cell): GoValue
    decreases c, 0
  {
    match c
    case NullCell => Nil
    case BoolCell(b) => GoBool(b)
    case Int32(v) => GoInt(v)
    case Int64(v) => GoInt(v)
    case Float(bits) => GoFloat(bits)
    case TextCell(text) => GoString(text)
    case ListCell(items) => GoSlice(GoAll(items))
    case MapCell(entries) => GoMap(GoEntries(entries))
    case Node(id) => GoNode(id)
    case Relationship(id) => GoRelationship(id)
    case PathCell(nodes, rels) => GoPath(nodes, rels)
    case Iso(kind, text) => GoIso(kind, text)
    case Point(srid, x, y, z) => GoPoint(srid, x, y, z)
    case Vector(coord, values) => GoVector(coord, Components(coord, values))
    case Binary(segments) => GoBinary(segments)
  }

  function GoAll(cs: seq<Cell>): (gs: seq<GoValue>)
    ensures |gs| == |cs|
    decreases cs, 0
  {
    if cs == [] then [] else GoAll(cs[..|cs| - 1]) + [GoOf(cs[|cs| - 1])]
  }

  /** A later entry of the same key wins. */
  function GoEntries(es: seq<Entry>): map<Bytes, GoValue>
    decreases es, 0
  {
    if es == [] then map[]
    else
      var last := es[|es| - 1];
      assert last.cell < last;
      GoEntries(es[..|es| - 1])[last.key := GoOf(last.cell)]
  }

  lemma GoEntriesSnoc(es: seq<Entry>, e: Entry)
    ensures GoEntries(es + [e]) == GoEntries(es)[e.key := GoOf(e.cell)]
  {
    assert (es + [e])[..|es|] == es;
  }

  lemma GoAllSnoc(cs: seq<Cell>, c: Cell)
    ensures GoAll(cs + [c]) == GoAll(cs) + [GoOf(c)]
  {
    assert (cs + [c])[..|cs|] == cs;
  }

  // ----- what the encoder makes of a value -----

  predicate DistinctKeys(es: seq<Entry>) { forall i, j | 0 <= i < j < |es| :: es[i].key != es[j].key }

  predicate ComponentLaid(coord: int, v: Component, bytes: Bytes) {
    && |bytes| == Width(coord)
    && if coord < 2 then v == FloatBits(bytes)
       else v.Whole? && FitsSigned(v.number, |bytes|) && bytes == LE(Unsigned(v.number, |bytes|), |bytes|)
  }

  /** The encoder lays the value out as `c`: a number in four bytes where they
      hold it, a map's values under its keys, each once. */
  ghost predicate LaidOut(g: GoValue, c: Cell)
    decreases c
  {
    match g
    case Nil => c == NullCell
    case GoBool(flag) => c == BoolCell(flag)
    case GoInt(n) => c == if FitsSigned(n, 4) then Int32(n) else Int64(n)
    case GoFloat(bits) => c == Float(bits)
    case GoString(text) => c == TextCell(text)
    case GoSlice(items) =>
      c.ListCell? && |c.items| == |items| && forall i | 0 <= i < |items| :: LaidOut(items[i], c.items[i])
    case GoMap(entries) =>
      && c.MapCell? && DistinctKeys(c.entries)
      && (forall k | k in entries :: exists i | 0 <= i < |c.entries| :: c.entries[i].key == k)
      && (forall i | 0 <= i < |c.entries| ::
            c.entries[i].key in entries && LaidOut(entries[c.entries[i].key], c.entries[i].cell))
    case GoNode(id) => c == Node(id)
    case GoRelationship(id) => c == Relationship(id)
    case GoPath(nodes, rels) => c == PathCell(nodes, rels)
    case GoIso(kind, text) => c == Iso(kind, text)
    case GoPoint(srid, x, y, z) => c == Point(srid, x, y, z)
    case GoVector(coord, values) =>
      && c.Vector? && c.coord == coord && |c.values| == |values|
      && forall i | 0 <= i < |values| :: ComponentLaid(coord, values[i], c.values[i])
    case GoBinary(segments) => c == Binary(segments)
  }

  /** The layouts the encoder chooses. */
  ghost predicate Chosen(c: Cell)
    decreases c
  {
    match c
    case Int32(v) => FitsSigned(v, 4)
    case Int64(v) => !FitsSigned(v, 4)
    case ListCell(items) => forall i | 0 <= i < |items| :: Chosen(items[i])
    case MapCell(entries) => DistinctKeys(entries) && forall i | 0 <= i < |entries| :: Chosen(entries[i].cell)
    case Vector(coord, values) => forall i | 0 <= i < |values| :: |values[i]| == Width(coord)
    case _ => true
  }

  lemma {:induction false} GoAllAt(cs: seq<Cell>)
    ensures forall i | 0 <= i < |cs| :: GoAll(cs)[i] == GoOf(cs[i])
  {
    if cs != [] { GoAllAt(cs[..|cs| - 1]); }
  }

  lemma {:induction false} GoEntriesAt(es: seq<Entry>)
    requires DistinctKeys(es)
    ensures forall k | k in GoEntries(es) :: exists i | 0 <= i < |es| :: es[i].key == k
    ensures forall i | 0 <= i < |es| :: es[i].key in GoEntries(es) && GoEntries(es)[es[i].key] == GoOf(es[i].cell)
  {
    if es != [] {
      var last := |es| - 1;
      GoEntriesAt(es[..last]);
      forall k | k in GoEntries(es) ensures exists i | 0 <= i < |es| :: es[i].key == k {
        if k != es[last].key {
          var i :| 0 <= i < last && es[..last][i].key == k;
          assert es[i].key == k;
        }
      }
      forall i | 0 <= i < |es|
        ensures es[i].key in GoEntries(es) && GoEntries(es)[es[i].key] == GoOf(es[i].cell)
      {
        if i < last { assert es[..last][i] == es[i]; }
      }
    }
  }

  lemma ComponentIs(coord: int, v: Component, bytes: Bytes)
    ensures ComponentLaid(coord, v, bytes) <==> |bytes| == Width(coord) && [v] == Components(coord, [bytes])
  {
    var k := Width(coord);
    assert Components(coord, []) == [];
    if |bytes| == k {
      FromLEBelow(bytes);
      FromLERoundTrip(bytes);
      assert Components(coord, [bytes])[0] == if coord < 2 then FloatBits(bytes) else Whole(Signed(FromLE(bytes), k));
      if coord >= 2 && v.Whole? && FitsSigned(v.number, k) {
        SignedRoundTrip(v.number, k);
        LERoundTrip(Unsigned(v.number, k), k);
      }
    }
  }

  lemma {:induction false} ComponentsAt(coord: int, values: seq<Bytes>)
    ensures forall i | 0 <= i < |values| :: [Components(coord, values)[i]] == Components(coord, [values[i]])
  {
    if values != [] {
      ComponentsAt(coord, values[1..]);
      assert Components(coord, []) == [];
    }
  }

  lemma VectorIs(g: GoValue, c: Cell)
    requires c.Vector?
    ensures LaidOut(g, c) <==> Chosen(c) && g == GoOf(c)
  {
    var vs := Components(c.coord, c.values);
    ComponentsAt(c.coord, c.values);
    if g.GoVector? && g.coord == c.coord && |g.values| == |c.values| {
      forall i | 0 <= i < |vs|
        ensures ComponentLaid(c.coord, g.values[i], c.values[i]) <==> |c.values[i]| == Width(c.coord) && g.values[i] == vs[i]
      {
        ComponentIs(c.coord, g.values[i], c.values[i]);
        assert [g.values[i]] == [vs[i]] <==> g.values[i] == vs[i];
      }
    }
  }

  lemma SliceIs(g: GoValue, c: Cell)
    requires c.ListCell?
    ensures LaidOut(g, c) <==> Chosen(c) && g == GoOf(c)
    decreases c, 0
  {
    if g.GoSlice? && |g.items| == |c.items| {
      GoAllAt(c.items);
      forall i | 0 <= i < |c.items|
        ensures LaidOut(g.items[i], c.items[i]) <==> Chosen(c.items[i]) && g.items[i] == GoOf(c.items[i])
      {
        GoIs(g.items[i], c.items[i]);
      }
    }
  }

  lemma GoMapIs(g: GoValue, c: Cell)
    requires c.MapCell?
    ensures LaidOut(g, c) <==> Chosen(c) && g == GoOf(c)
    decreases c, 0
  {
    var es := c.entries;
    if g.GoMap? && DistinctKeys(es) {
      forall i | 0 <= i < |es| && es[i].key in g.entries
        ensures LaidOut(g.entries[es[i].key], es[i].cell)
          <==> Chosen(es[i].cell) && g.entries[es[i].key] == GoOf(es[i].cell)
      {
        assert es[i].cell < es[i];
        GoIs(g.entries[es[i].key], es[i].cell);
      }
      MapIs(g.entries, es);
    }
  }

  /** A value is laid out as `c` exactly when `c` is a layout the encoder
      chooses and reads as that value. */
  lemma {:induction false} GoIs(g: GoValue, c: Cell)
    ensures LaidOut(g, c) <==> Chosen(c) && g == GoOf(c)
    decreases c, 1
  {
    if c.ListCell? { SliceIs(g, c); }
    else if c.MapCell? { GoMapIs(g, c); }
    else if c.Vector? { VectorIs(g, c); }
  }

  lemma MapIs(m: map<Bytes, GoValue>, es: seq<Entry>)
    requires DistinctKeys(es)
    ensures m == GoEntries(es) <==>
      && (forall k | k in m :: exists i | 0 <= i < |es| :: es[i].key == k)
      && (forall i | 0 <= i < |es| :: es[i].key in m && m[es[i].key] == GoOf(es[i].cell))
  {
    GoEntriesAt(es);
    var n := GoEntries(es);
    if (forall k | k in m :: exists i | 0 <= i < |es| :: es[i].key == k)
       && (forall i | 0 <= i < |es| :: es[i].key in m && m[es[i].key] == GoOf(es[i].cell)) {
      forall k | k in m ensures k in n && n[k] == m[k] { var i :| 0 <= i < |es| && es[i].key == k; }
      forall k | k in n ensures k in m { var i :| 0 <= i < |es| && es[i].key == k; }
    }
  }

  /** What the encoder wrote for a value reads back as that value, whatever
      follows, and reading stops there. */
  lemma ValueBack(g: GoValue, c: Cell, rest: Bytes)
    requires Fits(c) && LaidOut(g, c)
    ensures ReadCell(Write(c) + rest) == Some((c, rest)) && GoOf(c) == g
  {
    CellBack(c, rest);
    GoIs(g, c);
  }

  class Reader {
    const buf: Bytes
    var off: nat

    ghost predicate Valid()
      reads this
    {
      off <= |buf|
    }

    ghost function Rest(): Bytes
      requires Valid()
      reads this
    {
      buf[off..]
    }

    constructor (buf: Bytes)
      ensures Valid() && this.buf == buf && Rest() == buf
    {
      this.buf, off := buf, 0;
    }

    /** `n` bytes; reading past the end panics, here `None`. */
    method Raw(n: nat) returns (r: Option<Bytes>)
      requires Valid()
      modifies `off
      ensures Valid()
      ensures match Take(old(Rest()), n) case None => r.None? case Some((b, s)) => r == Some(b) && Rest() == s
    {
      if off + n > |buf| { return None; }
      r := Some(buf[off..off + n]);
      assert buf[off..][..n] == buf[off..off + n] && buf[off..][n..] == buf[off + n..];
      off := off + n;
    }

    method U32() returns (r: Option<nat>)
      requires Valid()
      modifies `off
      ensures Valid()
      ensures match ReadU32(old(Rest())) case None => r.None? case Some((n, s)) => r == Some(n) && Rest() == s
    {
      var b := Raw(4);
      r := if b.None? then None else Some(FromLE(b.value));
    }

    method I(k: nat) returns (r: Option<int>)
      requires Valid()
      modifies `off
      ensures Valid()
      ensures match ReadSigned(old(Rest()), k) case None => r.None? case Some((v, s)) => r == Some(v) && Rest() == s
    {
      var b := Raw(k);
      r := if b.None? then None else Some(Signed(FromLE(b.value), k));
    }

    method Str() returns (r: Option<Bytes>)
      requires Valid()
      modifies `off
      ensures Valid()
      ensures match ReadText(old(Rest())) case None => r.None? case Some((t, s)) => r == Some(t) && Rest() == s
    {
      var n := U32();
      if n.None? { return None; }
      r := Raw(n.value);
    }

    method Ids(n: nat) returns (r: Option<seq<int>>)
      requires Valid()
      modifies `off
      ensures Valid()
      ensures match ReadIds(old(Rest()), n) case None => r.None? case Some((ids, s)) => r == Some(ids) && Rest() == s
    {
      var ids: seq<int> := [];
      var i := 0;
      AfterNone(ReadIds(Rest(), n));
      while i < n
        invariant i <= n && Valid()
        invariant ReadIds(old(Rest()), n) == After(ids, ReadIds(Rest(), n - i))
      {
        IdsStep(ids, Rest(), n - i);
        var id := I(8);
        if id.None? { return None; }
        ids, i := ids + [id.value], i + 1;
      }
      AfterEnd(ids, Rest());
      r := Some(ids);
    }

    method Raws(width: nat, n: nat) returns (r: Option<seq<Bytes>>)
      requires Valid()
      modifies `off
      ensures Valid()
      ensures match ReadRaws(old(Rest()), width, n) case None => r.None? case Some((vs, s)) => r == Some(vs) && Rest() == s
    {
      var values: seq<Bytes> := [];
      var i := 0;
      AfterNone(ReadRaws(Rest(), width, n));
      while i < n
        invariant i <= n && Valid()
        invariant ReadRaws(old(Rest()), width, n) == After(values, ReadRaws(Rest(), width, n - i))
      {
        RawsStep(values, Rest(), width, n - i);
        var v := Raw(width);
        if v.None? { return None; }
        values, i := values + [v.value], i + 1;
      }
      AfterEnd(values, Rest());
      r := Some(values);
    }

    method Segments(n: nat) returns (r: Option<seq<Bytes>>)
      requires Valid()
      modifies `off
      ensures Valid()
      ensures match ReadSegments(old(Rest()), n) case None => r.None? case Some((ss, s)) => r == Some(ss) && Rest() == s
    {
      var segments: seq<Bytes> := [];
      var i := 0;
      ghost var rest := Rest();
      ghost var all := ReadSegments(rest, n);
      AfterNone(all);
      while i < n
        invariant i <= n && Valid() && rest == Rest()
        invariant all == After(segments, ReadSegments(rest, n - i))
      {
        SegmentsStep(segments, rest, n - i);
        var segment := Str();
        if segment.None? { return None; }
        assert ReadText(rest) == Some((segment.value, Rest()));
        rest := Rest();
        segments, i := segments + [segment.value], i + 1;
        assert all == After(segments, ReadSegments(rest, n - i));
      }
      AfterEnd(segments, rest);
      r := Some(segments);
    }

    method Path() returns (r: Option<GoValue>)
      requires Valid()
      modifies `off
      ensures Valid()
      ensures match ReadPath(old(Rest())) case None => r.None? case Some((c, s)) => r == Some(GoOf(c)) && Rest() == s
    {
      var n := U32();
      if n.None? { return None; }
      var nodes := Ids(n.value);
      if nodes.None? { return None; }
      var m := U32();
      if m.None? { return None; }
      var rels := Ids(m.value);
      if rels.None? { return None; }
      r := Some(GoPath(nodes.value, rels.value));
    }

    method Point() returns (r: Option<GoValue>)
      requires Valid()
      modifies `off
      ensures Valid()
      ensures match ReadPoint(old(Rest())) case None => r.None? case Some((c, s)) => r == Some(GoOf(c)) && Rest() == s
    {
      var hasZ := Raw(1);
      if hasZ.None? { return None; }
      var srid := U32();
      if srid.None? { return None; }
      var x := Raw(8);
      if x.None? { return None; }
      var y := Raw(8);
      if y.None? { return None; }
      var z: Option<Bytes> := None;
      if hasZ.value[0] != 0 {
        z := Raw(8);
        if z.None? { return None; }
      }
      r := Some(GoPoint(srid.value, x.value, y.value, z));
    }

    method Vector() returns (r: Option<GoValue>)
      requires Valid()
      modifies `off
      ensures Valid()
      ensures match ReadVector(old(Rest())) case None => r.None? case Some((c, s)) => r == Some(GoOf(c)) && Rest() == s
    {
      var coord := Raw(1);
      if coord.None? { return None; }
      var n := U32();
      if n.None? || coord.value[0] > 5 { return None; }
      var values := Raws(Width(coord.value[0]), n.value);
      if values.None? { return None; }
      r := Some(GoVector(coord.value[0], Components(coord.value[0], values.value)));
    }

    method Items(n: nat) returns (r: Option<seq<GoValue>>)
      requires Valid()
      modifies `off
      ensures Valid()
      ensures match ReadCells(old(Rest()), n) case None => r.None? case Some((cs, s)) => r == Some(GoAll(cs)) && Rest() == s
      decreases |Rest()|, 2
    {
      var out: seq<GoValue> := [];
      ghost var cells: seq<Cell> := [];
      var i := 0;
      AfterNone(ReadCells(Rest(), n));
      while i < n
        invariant i <= n && Valid() && |Rest()| <= |old(Rest())| && out == GoAll(cells)
        invariant ReadCells(old(Rest()), n) == After(cells, ReadCells(Rest(), n - i))
      {
        ghost var before := Rest();
        CellsStep(cells, before, n - i);
        var v := Value();
        if v.None? { return None; }
        ghost var c := ReadCell(before).value.0;
        GoAllSnoc(cells, c);
        out, cells, i := out + [v.value], cells + [c], i + 1;
      }
      AfterEnd(cells, Rest());
      r := Some(out);
    }

    method KeyAndValue() returns (r: Option<(Bytes, GoValue)>)
      requires Valid()
      modifies `off
      ensures Valid()
      ensures match ReadEntry(old(Rest())) case None => r.None? case Some((e, s)) => r == Some((e.key, GoOf(e.cell))) && Rest() == s
      decreases |Rest()|, 1
    {
      var key := Str();
      if key.None? { return None; }
      var v := Value();
      if v.None? { return None; }
      r := Some((key.value, v.value));
    }

    method Entries(n: nat) returns (r: Option<map<Bytes, GoValue>>)
      requires Valid()
      modifies `off
      ensures Valid()
      ensures match ReadEntries(old(Rest()), n) case None => r.None? case Some((es, s)) => r == Some(GoEntries(es)) && Rest() == s
      decreases |Rest()|, 2
    {
      var out: map<Bytes, GoValue> := map[];
      ghost var entries: seq<Entry> := [];
      var i := 0;
      AfterNone(ReadEntries(Rest(), n));
      while i < n
        invariant i <= n && Valid() && |Rest()| <= |old(Rest())| && out == GoEntries(entries)
        invariant ReadEntries(old(Rest()), n) == After(entries, ReadEntries(Rest(), n - i))
      {
        ghost var before := Rest();
        EntriesStep(entries, before, n - i);
        var pair := KeyAndValue();
        if pair.None? { return None; }
        var (key, v) := pair.value;
        ghost var e := ReadEntry(before).value.0;
        GoEntriesSnoc(entries, e);
        out, entries, i := out[key := v], entries + [e], i + 1;
      }
      AfterEnd(entries, Rest());
      r := Some(out);
    }

    /** One cell: its value, with the offset at its end. */
    method Value() returns (r: Option<GoValue>)
      requires Valid()
      modifies `off
      ensures Valid()
      ensures match ReadCell(old(Rest())) case None => r.None? case Some((c, s)) => r == Some(GoOf(c)) && Rest() == s
      decreases |Rest()|, 0
    {
      if off == |buf| { return None; }
      var tag := buf[off];
      assert Rest()[0] == tag && Rest()[1..] == buf[off + 1..];
      off := off + 1;
      r := Tagged(tag);
    }

    /** What follows a tag. */
    method Tagged(tag: Byte) returns (r: Option<GoValue>)
      requires Valid()
      modifies `off
      ensures Valid()
      ensures match ReadTagged(tag, old(Rest())) case None => r.None? case Some((c, s)) => r == Some(GoOf(c)) && Rest() == s
      decreases |Rest()|, 3
    {
      if tag == 0x00 { return Some(Nil); }
      if tag == 0x01 { return Some(GoBool(false)); }
      if tag == 0x02 { return Some(GoBool(true)); }
      if tag == 0x03 || tag == 0x04 {
        var v := I(if tag == 0x03 then 4 else 8);
        return if v.None? then None else Some(GoInt(v.value));
      }
      if tag == 0x05 {
        var bits := Raw(8);
        return if bits.None? then None else Some(GoFloat(bits.value));
      }
      if tag == 0x06 {
        var text := Str();
        return if text.None? then None else Some(GoString(text.value));
      }
      if tag == 0x07 {
        var n := U32();
        if n.None? { return None; }
        var items := Items(n.value);
        return if items.None? then None else Some(GoSlice(items.value));
      }
      if tag == 0x08 {
        var n := U32();
        if n.None? { return None; }
        var entries := Entries(n.value);
        return if entries.None? then None else Some(GoMap(entries.value));
      }
      r := Record(tag);
    }

    method Record(tag: Byte) returns (r: Option<GoValue>)
      requires Valid() && tag > 0x08
      modifies `off
      ensures Valid()
      ensures match ReadTagged(tag, old(Rest())) case None => r.None? case Some((c, s)) => r == Some(GoOf(c)) && Rest() == s
    {
      if tag == 0x09 || tag == 0x0A {
        var id := I(8);
        return if id.None? then None else Some(if tag == 0x09 then GoNode(id.value) else GoRelationship(id.value));
      }
      if tag == 0x0B { r := Path(); return; }
      if tag <= 0x11 {
        var text := Str();
        return if text.None? then None else Some(GoIso(tag, text.value));
      }
      if tag == 0x12 { r := Point(); return; }
      if tag == 0x13 { r := Vector(); return; }
      if tag == 0x14 { r := BinaryValue(); return; }
      r := None;
    }

    method BinaryValue() returns (r: Option<GoValue>)
      requires Valid()
      modifies `off
      ensures Valid()
      ensures match ReadBinary(old(Rest())) case None => r.None? case Some((c, s)) => r == Some(GoOf(c)) && Rest() == s
    {
      var n := U32();
      if n.None? { return None; }
      var segments := Segments(n.value);
      r := if segments.None? then None else Some(GoBinary(segments.value));
    }
  }
}
