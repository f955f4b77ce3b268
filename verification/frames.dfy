/** Whole results, and the frames of a transaction's results. */
module Frames {
  import opened Values
  import opened Wire
  import opened RoundTrip
  import opened GoReaders

  datatype Table = Table(columns: seq<Bytes>, rows: seq<seq<Cell>>)

  const MAGIC: Bytes := [0x4C, 0x52, 0x31, 0x00]
  const TRANSACTION_MAGIC: Bytes := [0x4C, 0x52, 0x54, 0x00]

  // ----- results -----

  predicate TableFits(t: Table) {
    && |t.columns| < U32_LIMIT && |t.rows| < U32_LIMIT
    && (forall i | 0 <= i < |t.columns| :: |t.columns[i]| < U32_LIMIT)
    && (forall i | 0 <= i < |t.rows| :: |t.rows[i]| == |t.columns| && AllFit(t.rows[i]))
  }

  function WriteRows(rows: seq<seq<Cell>>): Bytes
    requires forall i | 0 <= i < |rows| :: AllFit(rows[i])
  {
    if rows == [] then [] else WriteAll(rows[0]) + WriteRows(rows[1..])
  }

  function WriteTable(t: Table): Bytes
    requires TableFits(t)
  {
    MAGIC + (WriteU32(|t.columns|) + (WriteSegments(t.columns) + (WriteU32(|t.rows|) + WriteRows(t.rows))))
  }

  function ReadRows(s: Bytes, width: nat, n: nat): (r: Read<seq<seq<Cell>>>)
    ensures r.Some? ==> |r.value.1| <= |s|
    decreases n
  {
    if n == 0 then Some(([], s))
    else match ReadCells(s, width)
      case None => None
      case Some((row, rest)) =>
        match ReadRows(rest, width, n - 1)
        case None => None
        case Some((rows, after)) => Some(([row] + rows, after))
  }

  /** A result needs at least its header; bytes after it are not looked at. */
  function ReadTable(s: Bytes): Read<Table> {
    if |s| < 12 || s[..4] != MAGIC then None
    else match ReadU32(s[4..])
      case None => None
      case Some((width, s1)) =>
        match ReadSegments(s1, width)
        case None => None
        case Some((columns, s2)) =>
          match ReadU32(s2)
          case None => None
          case Some((n, s3)) =>
            match ReadRows(s3, width, n)
            case None => None
            case Some((rows, rest)) => Some((Table(columns, rows), rest))
  }

  lemma {:induction false} RowsBack(rows: seq<seq<Cell>>, width: nat, rest: Bytes)
    requires forall i | 0 <= i < |rows| :: |rows[i]| == width && AllFit(rows[i])
    ensures ReadRows(WriteRows(rows) + rest, width, |rows|) == Some((rows, rest))
  {
    if rows == [] {
      assert [] + rest == rest;
    } else {
      assert WriteRows(rows) + rest == WriteAll(rows[0]) + (WriteRows(rows[1..]) + rest);
      CellsBack(rows[0], WriteRows(rows[1..]) + rest);
      RowsBack(rows[1..], width, rest);
      assert rows == [rows[0]] + rows[1..];
    }
  }

  lemma TableParts(s: Bytes, a: Bytes, b: Bytes, c: Bytes, d: Bytes, t: Table, rest: Bytes)
    requires s == MAGIC + (a + (b + (c + (d + rest)))) && |s| >= 12
    requires ReadU32(a + (b + (c + (d + rest)))) == Some((|t.columns|, b + (c + (d + rest))))
    requires ReadSegments(b + (c + (d + rest)), |t.columns|) == Some((t.columns, c + (d + rest)))
    requires ReadU32(c + (d + rest)) == Some((|t.rows|, d + rest))
    requires ReadRows(d + rest, |t.columns|, |t.rows|) == Some((t.rows, rest))
    ensures ReadTable(s) == Some((t, rest))
  {
    assert s[..4] == MAGIC && s[4..] == a + (b + (c + (d + rest)));
  }

  lemma Regroup5(m: Bytes, a: Bytes, b: Bytes, c: Bytes, d: Bytes, rest: Bytes)
    ensures (m + (a + (b + (c + d)))) + rest == m + (a + (b + (c + (d + rest))))
  {
    assert (c + d) + rest == c + (d + rest);
    assert (b + (c + d)) + rest == b + ((c + d) + rest);
    assert (a + (b + (c + d))) + rest == a + ((b + (c + d)) + rest);
  }

  /** A whole result reads back as itself. */
  lemma TableBack(t: Table, rest: Bytes)
    requires TableFits(t)
    ensures ReadTable(WriteTable(t) + rest) == Some((t, rest))
  {
    var a, b, c, d := WriteU32(|t.columns|), WriteSegments(t.columns), WriteU32(|t.rows|), WriteRows(t.rows);
    U32Back(|t.columns|, b + (c + (d + rest)));
    SegmentsBack(t.columns, c + (d + rest));
    U32Back(|t.rows|, d + rest);
    RowsBack(t.rows, |t.columns|, rest);
    Regroup5(MAGIC, a, b, c, d, rest);
    TableParts(WriteTable(t) + rest, a, b, c, d, t, rest);
  }

  // ----- the Go decoder -----

  /** A row as a map; of two columns of one name the later wins. */
  function RowOf(columns: seq<Bytes>, cells: seq<Cell>): map<Bytes, GoValue>
    requires |cells| == |columns|
  {
    if columns == [] then map[]
    else
      var last := |columns| - 1;
      RowOf(columns[..last], cells[..last])[columns[last] := GoOf(cells[last])]
  }

  lemma RowOfSnoc(columns: seq<Bytes>, j: nat, cells: seq<Cell>, c: Cell)
    requires j < |columns| && |cells| == j
    ensures RowOf(columns[..j + 1], cells + [c]) == RowOf(columns[..j], cells)[columns[j] := GoOf(c)]
  {
    assert columns[..j + 1][..j] == columns[..j] && (cells + [c])[..j] == cells;
  }

  predicate DistinctNames(columns: seq<Bytes>) { forall i, j | 0 <= i < j < |columns| :: columns[i] != columns[j] }

  /** Under each name, the value of the cell in its column. */
  lemma {:induction false} RowHolds(columns: seq<Bytes>, cells: seq<Cell>)
    requires |cells| == |columns| && DistinctNames(columns)
    ensures forall name | name in RowOf(columns, cells) :: name in columns
    ensures forall j | 0 <= j < |columns| :: columns[j] in RowOf(columns, cells) && RowOf(columns, cells)[columns[j]] == GoOf(cells[j])
  {
    if columns != [] {
      var last := |columns| - 1;
      RowHolds(columns[..last], cells[..last]);
      forall j | 0 <= j < last
        ensures columns[j] in RowOf(columns, cells) && RowOf(columns, cells)[columns[j]] == GoOf(cells[j])
      {
        assert columns[..last][j] == columns[j] && cells[..last][j] == cells[j];
      }
    }
  }

  lemma {:induction false} ReadCellsCount(s: Bytes, n: nat)
    ensures ReadCells(s, n).Some? ==> |ReadCells(s, n).value.0| == n
    decreases n
  {
    if n > 0 && ReadCell(s).Some? { ReadCellsCount(ReadCell(s).value.1, n - 1); }
  }

  lemma {:induction false} ReadSegmentsCount(s: Bytes, n: nat)
    ensures ReadSegments(s, n).Some? ==> |ReadSegments(s, n).value.0| == n
    decreases n
  {
    if n > 0 && ReadText(s).Some? { ReadSegmentsCount(ReadText(s).value.1, n - 1); }
  }

  datatype GoResult = GoResult(columns: seq<Bytes>, rows: seq<map<Bytes, GoValue>>)

  function GoRows(columns: seq<Bytes>, rows: seq<seq<Cell>>): seq<map<Bytes, GoValue>> {
    if rows == [] then []
    else
      var last := rows[|rows| - 1];
      GoRows(columns, rows[..|rows| - 1]) + [if |last| == |columns| then RowOf(columns, last) else map[]]
  }

  lemma GoRowsSnoc(columns: seq<Bytes>, rows: seq<seq<Cell>>, cells: seq<Cell>)
    requires |cells| == |columns|
    ensures GoRows(columns, rows + [cells]) == GoRows(columns, rows) + [RowOf(columns, cells)]
  {
    assert (rows + [cells])[..|rows|] == rows;
  }

  function GoTable(t: Table): GoResult { GoResult(t.columns, GoRows(t.columns, t.rows)) }

  lemma {:induction false} GoRowsAt(columns: seq<Bytes>, rows: seq<seq<Cell>>)
    requires forall i | 0 <= i < |rows| :: |rows[i]| == |columns|
    ensures |GoRows(columns, rows)| == |rows|
    ensures forall i | 0 <= i < |rows| :: GoRows(columns, rows)[i] == RowOf(columns, rows[i])
  {
    if rows != [] { GoRowsAt(columns, rows[..|rows| - 1]); }
  }

  /** The result a buffer starts with. */
  function ResultOf(buf: Bytes): Option<GoResult> {
    match ReadTable(buf) case None => None case Some((t, _)) => Some(GoTable(t))
  }

  method ReadRow(r: Reader, columns: seq<Bytes>) returns (row: Option<map<Bytes, GoValue>>)
    requires r.Valid()
    modifies r`off
    ensures r.Valid()
    ensures match ReadCells(old(r.Rest()), |columns|)
      case None => row.None?
      case Some((cells, s)) => |cells| == |columns| && row == Some(RowOf(columns, cells)) && r.Rest() == s
  {
    var out: map<Bytes, GoValue> := map[];
    ghost var cells: seq<Cell> := [];
    var j := 0;
    AfterNone(ReadCells(r.Rest(), |columns|));
    while j < |columns|
      invariant j <= |columns| && r.Valid() && |cells| == j && out == RowOf(columns[..j], cells)
      invariant ReadCells(old(r.Rest()), |columns|) == After(cells, ReadCells(r.Rest(), |columns| - j))
    {
      ghost var before := r.Rest();
      CellsStep(cells, before, |columns| - j);
      var v := r.Value();
      if v.None? { return None; }
      ghost var c := ReadCell(before).value.0;
      RowOfSnoc(columns, j, cells, c);
      out, cells, j := out[columns[j] := v.value], cells + [c], j + 1;
    }
    AfterEnd(cells, r.Rest());
    assert columns[..|columns|] == columns;
    row := Some(out);
  }

  ghost predicate RowIs(row: map<Bytes, GoValue>, columns: seq<Bytes>, values: seq<GoValue>)
    requires |values| == |columns|
  {
    && (forall name | name in row :: name in columns)
    && (forall j | 0 <= j < |columns| :: columns[j] in row && row[columns[j]] == values[j])
  }

  lemma RowBack(columns: seq<Bytes>, cells: seq<Cell>, values: seq<GoValue>)
    requires |cells| == |columns| == |values| && DistinctNames(columns)
    requires forall j | 0 <= j < |columns| :: LaidOut(values[j], cells[j])
    ensures RowIs(RowOf(columns, cells), columns, values)
  {
    RowHolds(columns, cells);
    forall j | 0 <= j < |columns| ensures values[j] == GoOf(cells[j]) { GoIs(values[j], cells[j]); }
  }

  /** A result reads back with each value under the name of its column. */
  lemma ResultBack(t: Table, values: seq<seq<GoValue>>, rest: Bytes)
    requires TableFits(t) && DistinctNames(t.columns) && |values| == |t.rows|
    requires forall i | 0 <= i < |values| :: |values[i]| == |t.columns|
    requires forall i | 0 <= i < |values| :: forall j | 0 <= j < |t.columns| :: LaidOut(values[i][j], t.rows[i][j])
    ensures ResultOf(WriteTable(t) + rest).Some?
    ensures var r := ResultOf(WriteTable(t) + rest).value;
      && r.columns == t.columns && |r.rows| == |values|
      && forall i | 0 <= i < |values| :: RowIs(r.rows[i], t.columns, values[i])
  {
    TableBack(t, rest);
    GoRowsAt(t.columns, t.rows);
    forall i | 0 <= i < |values| ensures RowIs(RowOf(t.columns, t.rows[i]), t.columns, values[i]) {
      RowBack(t.columns, t.rows[i], values[i]);
    }
  }

  method DecodeBuffer(buf: Bytes) returns (result: Option<GoResult>)
    ensures result == ResultOf(buf)
  {
    if |buf| < 12 || buf[..4] != MAGIC { return None; }
    var r := new Reader(buf);
    var magic := r.Raw(4);
    var width := r.U32();
    if width.None? { return None; }
    ReadSegmentsCount(r.Rest(), width.value);
    var columns := r.Segments(width.value);
    if columns.None? { return None; }
    var n := r.U32();
    if n.None? { return None; }
    var rows := ReadAllRows(r, columns.value, n.value);
    result := if rows.None? then None else Some(GoResult(columns.value, rows.value));
  }

  lemma RowsStep(first: seq<seq<Cell>>, s: Bytes, width: nat, n: nat)
    requires n > 0
    ensures match ReadCells(s, width)
      case None => ReadRows(s, width, n).None?
      case Some((row, rest)) =>
        After(first, ReadRows(s, width, n)) == After(first + [row], ReadRows(rest, width, n - 1))
  {
    if ReadCells(s, width).Some? {
      var (row, rest) := ReadCells(s, width).value;
      AfterOne(first, row, ReadRows(rest, width, n - 1));
    }
  }

  method ReadAllRows(r: Reader, columns: seq<Bytes>, n: nat) returns (rows: Option<seq<map<Bytes, GoValue>>>)
    requires r.Valid()
    modifies r`off
    ensures r.Valid()
    ensures match ReadRows(old(r.Rest()), |columns|, n)
      case None => rows.None?
      case Some((cells, s)) => rows == Some(GoRows(columns, cells)) && r.Rest() == s
  {
    var out: seq<map<Bytes, GoValue>> := [];
    ghost var read: seq<seq<Cell>> := [];
    var i := 0;
    AfterNone(ReadRows(r.Rest(), |columns|, n));
    while i < n
      invariant i <= n && r.Valid() && out == GoRows(columns, read)
      invariant ReadRows(old(r.Rest()), |columns|, n) == After(read, ReadRows(r.Rest(), |columns|, n - i))
    {
      ghost var before := r.Rest();
      RowsStep(read, before, |columns|, n - i);
      var row := ReadRow(r, columns);
      if row.None? { return None; }
      ghost var cells := ReadCells(before, |columns|).value.0;
      GoRowsSnoc(columns, read, cells);
      out, read, i := out + [row.value], read + [cells], i + 1;
    }
    AfterEnd(read, r.Rest());
    rows := Some(out);
  }

  // ----- transactions -----

  /** The results `read` finds in the bodies, if it finds one in each. */
  function Tables(bodies: seq<Bytes>, read: Bytes -> Option<GoResult>): Option<seq<GoResult>> {
    if bodies == [] then Some([])
    else match (read(bodies[0]), Tables(bodies[1..], read))
      case (Some(first), Some(rest)) => Some([first] + rest)
      case _ => None
  }

  function Reading(): Bytes -> Option<GoResult> { (body: Bytes) => ResultOf(body) }

  /** A count, then each result behind its length, and nothing more. */
  function ReadTransaction(buf: Bytes): Option<seq<GoResult>> {
    if |buf| < 8 || buf[..4] != TRANSACTION_MAGIC then None else ReadFrames(buf[4..])
  }

  function ReadFrames(s: Bytes): Option<seq<GoResult>> {
    match ReadU32(s)
    case None => None
    case Some((count, after)) =>
      match ReadSegments(after, count)
      case None => None
      case Some((bodies, rest)) => if rest == [] then Tables(bodies, Reading()) else None
  }

  function WriteTransaction(bodies: seq<Bytes>): Bytes {
    TRANSACTION_MAGIC + (WriteU32(|bodies|) + WriteSegments(bodies))
  }

  predicate BodiesFit(bodies: seq<Bytes>) {
    |bodies| < U32_LIMIT && forall i | 0 <= i < |bodies| :: |bodies[i]| < U32_LIMIT
  }

  lemma U32Forth(s: Bytes)
    requires ReadU32(s).Some?
    ensures var (n, rest) := ReadU32(s).value; n < U32_LIMIT && s == WriteU32(n) + rest
  {
    Powers();
    FromLEBelow(s[..4]);
    FromLERoundTrip(s[..4]);
    assert s == s[..4] + s[4..];
  }

  lemma TextForth(s: Bytes)
    requires ReadText(s).Some?
    ensures var (text, rest) := ReadText(s).value; |text| < U32_LIMIT && s == WriteText(text) + rest
  {
    U32Forth(s);
    var (size, s') := ReadU32(s).value;
    var (text, rest) := Take(s', size).value;
    TakeForth(s', size);
    Regroup(WriteU32(size), text, rest);
  }

  lemma TakeForth(s: Bytes, n: nat)
    requires Take(s, n).Some?
    ensures var (front, rest) := Take(s, n).value; |front| == n && s == front + rest
  {}

  lemma Regroup(a: Bytes, b: Bytes, c: Bytes)
    ensures (a + b) + c == a + (b + c)
  {}

  lemma WriteSegmentsFirst(segment: Bytes, segments: seq<Bytes>, rest: Bytes)
    ensures WriteSegments([segment] + segments) + rest == WriteText(segment) + (WriteSegments(segments) + rest)
  {
    assert ([segment] + segments)[1..] == segments;
    assert WriteSegments([segment] + segments) == WriteText(segment) + WriteSegments(segments);
  }

  lemma {:induction false} SegmentsForth(s: Bytes, n: nat)
    requires ReadSegments(s, n).Some?
    ensures var (segments, rest) := ReadSegments(s, n).value;
      |segments| == n && (forall i | 0 <= i < n :: |segments[i]| < U32_LIMIT)
      && s == WriteSegments(segments) + rest
    decreases n
  {
    if n == 0 {
      assert s == [] + s;
    } else {
      TextForth(s);
      var (segment, s') := ReadText(s).value;
      SegmentsForth(s', n - 1);
      var (segments, rest) := ReadSegments(s', n - 1).value;
      WriteSegmentsFirst(segment, segments, rest);
    }
  }

  /** A transaction buffer is accepted exactly when its frames tile it and
      each holds a result, and then it yields theirs in order. */
  lemma FramesTile(buf: Bytes, results: seq<GoResult>)
    ensures ReadTransaction(buf) == Some(results)
      <==> exists bodies :: BodiesFit(bodies) && buf == WriteTransaction(bodies) && Tables(bodies, Reading()) == Some(results)
  {
    if ReadTransaction(buf) == Some(results) {
      var (count, s) := ReadU32(buf[4..]).value;
      var (bodies, rest) := ReadSegments(s, count).value;
      U32Forth(buf[4..]);
      SegmentsForth(s, count);
      assert WriteSegments(bodies) + [] == WriteSegments(bodies);
      assert buf == buf[..4] + buf[4..];
      assert BodiesFit(bodies) && buf == WriteTransaction(bodies) && Tables(bodies, Reading()) == Some(results);
    }
    if bodies :| BodiesFit(bodies) && buf == WriteTransaction(bodies) && Tables(bodies, Reading()) == Some(results) {
      TransactionBack(bodies);
    }
  }

  lemma TransactionBack(bodies: seq<Bytes>)
    requires BodiesFit(bodies)
    ensures ReadTransaction(WriteTransaction(bodies)) == Tables(bodies, Reading())
  {
    var body := WriteSegments(bodies);
    var buf := WriteTransaction(bodies);
    assert buf[..4] == TRANSACTION_MAGIC && buf[4..] == WriteU32(|bodies|) + body;
    U32Back(|bodies|, body);
    SegmentsBack(bodies, []);
    assert body + [] == body;
  }

  lemma {:induction false} TablesSnoc(bodies: seq<Bytes>, body: Bytes, read: Bytes -> Option<GoResult>)
    ensures Tables(bodies + [body], read) ==
      match (Tables(bodies, read), read(body))
      case (Some(rs), Some(r)) => Some(rs + [r])
      case _ => None
  {
    if bodies == [] {
      assert [body][1..] == [] && [] + [body] == [body];
      if read(body).Some? { assert [] + [read(body).value] == [read(body).value] + []; }
    } else {
      assert (bodies + [body])[1..] == bodies[1..] + [body];
      TablesSnoc(bodies[1..], body, read);
      if Tables(bodies, read).Some? && read(body).Some? {
        var rest := Tables(bodies[1..], read).value;
        assert [read(bodies[0]).value] + (rest + [read(body).value])
            == [read(bodies[0]).value] + rest + [read(body).value];
      }
    }
  }

  lemma {:induction false} TablesStuck(bodies: seq<Bytes>, more: seq<Bytes>, read: Bytes -> Option<GoResult>)
    requires Tables(bodies, read).None?
    ensures Tables(bodies + more, read).None?
  {
    assert (bodies + more)[1..] == bodies[1..] + more;
    if read(bodies[0]).Some? { TablesStuck(bodies[1..], more, read); }
  }

  lemma TablesStuckAll(bodies: seq<Bytes>, more: Read<seq<Bytes>>, read: Bytes -> Option<GoResult>)
    requires Tables(bodies, read).None?
    ensures After(bodies, more).Some? ==> Tables(After(bodies, more).value.0, read).None?
  {
    if more.Some? { TablesStuck(bodies, more.value.0, read); }
  }

  /** Reading on from `s`, `parts` come first and `here` is left. */
  ghost predicate ReadsTo(s: Bytes, parts: seq<Bytes>, here: Bytes)
    decreases |parts|
  {
    if parts == [] then s == here
    else match ReadText(s)
      case None => false
      case Some((part, rest)) => part == parts[0] && ReadsTo(rest, parts[1..], here)
  }

  lemma {:induction false} ReadsOn(s: Bytes, parts: seq<Bytes>, here: Bytes, part: Bytes, rest: Bytes)
    requires ReadsTo(s, parts, here) && ReadText(here) == Some((part, rest))
    ensures ReadsTo(s, parts + [part], rest)
    decreases |parts|
  {
    if parts == [] {
      assert [] + [part] == [part] && [part][1..] == [];
    } else {
      assert (parts + [part])[1..] == parts[1..] + [part];
      ReadsOn(ReadText(s).value.1, parts[1..], here, part, rest);
    }
  }

  lemma AfterFirst<T>(parts: seq<T>, more: Read<seq<T>>)
    requires parts != []
    ensures After(parts, more) == After([parts[0]], After(parts[1..], more))
  {
    if more.Some? { assert [parts[0]] + (parts[1..] + more.value.0) == parts + more.value.0; }
  }

  lemma {:induction false} ReadAll(s: Bytes, parts: seq<Bytes>, here: Bytes, n: nat)
    requires ReadsTo(s, parts, here) && |parts| <= n
    ensures ReadSegments(s, n) == After(parts, ReadSegments(here, n - |parts|))
    decreases |parts|
  {
    if parts == [] {
      AfterNone(ReadSegments(here, n));
    } else {
      ReadAll(ReadText(s).value.1, parts[1..], here, n - 1);
      AfterFirst(parts, ReadSegments(here, n - |parts|));
    }
  }

  method DecodeTransactionBuffer(buf: Bytes) returns (results: Option<seq<GoResult>>)
    ensures results == ReadTransaction(buf)
  {
    if |buf| < 8 || buf[..4] != TRANSACTION_MAGIC { return None; }
    var r := new Reader(buf);
    var magic := r.Raw(4);
    results := DecodeCounted(r);
  }

  /** The frames after the magic, and nothing after them. */
  method DecodeCounted(r: Reader) returns (results: Option<seq<GoResult>>)
    requires r.Valid()
    modifies r`off
    ensures results == ReadFrames(old(r.Rest()))
  {
    var count := r.U32();
    if count.None? { return None; }
    results := DecodeFrames(r, count.value, Reading());
    if results.Some? && r.off != |r.buf| { results := None; }
  }

  /** One frame: its length, and the result in it. */
  method DecodeFrame(r: Reader, ghost read: Bytes -> Option<GoResult>)
    returns (whole: bool, result: Option<GoResult>)
    requires r.Valid() && forall body {:trigger ResultOf(body)} :: read(body) == ResultOf(body)
    modifies r`off
    ensures r.Valid()
    ensures match ReadText(old(r.Rest()))
      case None => !whole
      case Some((body, s)) => whole && result == read(body) && r.Rest() == s
  {
    var body := r.Str();
    if body.None? { return false, None; }
    whole, result := true, None;
    result := DecodeBuffer(body.value);
  }

  /** Each frame's result, in turn. */
  method DecodeFrames(r: Reader, count: nat, ghost read: Bytes -> Option<GoResult>)
    returns (results: Option<seq<GoResult>>)
    requires r.Valid() && forall body {:trigger ResultOf(body)} :: read(body) == ResultOf(body)
    modifies r`off
    ensures r.Valid()
    ensures match ReadSegments(old(r.Rest()), count)
      case None => results.None?
      case Some((bodies, s)) => results == Tables(bodies, read) && (results.Some? ==> r.Rest() == s)
  {
    var out: seq<GoResult> := [];
    ghost var start, bodies: seq<Bytes> := r.Rest(), [];
    var i := 0;
    while i < count
      invariant i <= count && r.Valid() && |bodies| == i && Tables(bodies, read) == Some(out)
      invariant ReadsTo(start, bodies, r.Rest())
    {
      ghost var here := r.Rest();
      var whole, result := DecodeFrame(r, read);
      if !whole {
        Unfinished(start, bodies, here, count);
        return None;
      }
      ghost var body := ReadText(here).value.0;
      ReadsOn(start, bodies, here, body, r.Rest());
      TablesSnoc(bodies, body, read);
      bodies, i := bodies + [body], i + 1;
      if result.None? {
        Stuck(start, bodies, r.Rest(), count, read);
        return None;
      }
      out := out + [result.value];
    }
    Finished(start, bodies, r.Rest());
    results := Some(out);
  }

  lemma Unfinished(start: Bytes, bodies: seq<Bytes>, here: Bytes, count: nat)
    requires ReadsTo(start, bodies, here) && |bodies| < count && ReadText(here).None?
    ensures ReadSegments(start, count).None?
  {
    ReadAll(start, bodies, here, count);
  }

  lemma Stuck(start: Bytes, bodies: seq<Bytes>, here: Bytes, count: nat, read: Bytes -> Option<GoResult>)
    requires ReadsTo(start, bodies, here) && |bodies| <= count && Tables(bodies, read).None?
    ensures ReadSegments(start, count).Some? ==> Tables(ReadSegments(start, count).value.0, read).None?
  {
    ReadAll(start, bodies, here, count);
    TablesStuckAll(bodies, ReadSegments(here, count - |bodies|), read);
  }

  lemma Finished(start: Bytes, bodies: seq<Bytes>, here: Bytes)
    requires ReadsTo(start, bodies, here)
    ensures ReadSegments(start, |bodies|) == Some((bodies, here))
  {
    ReadAll(start, bodies, here, |bodies|);
    AfterEnd(bodies, here);
  }
}
