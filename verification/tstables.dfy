/** Whole results in TypeScript: the columns, then the rows through the
    factory the cache holds for them. */
module TsTables {
  import opened Values
  import opened Wire
  import opened RoundTrip
  import opened TsReaders
  import GoReaders
  import Frames

  datatype TsResult = TsResult(columns: seq<Bytes>, rows: seq<map<Bytes, TsValue>>)

  /** A row as an object; of two columns of one name the later wins. */
  function RowOf(columns: seq<Bytes>, cells: seq<Cell>, round: Rounding): map<Bytes, TsValue>
    requires |cells| == |columns|
  {
    if columns == [] then map[]
    else
      var last := |columns| - 1;
      RowOf(columns[..last], cells[..last], round)[columns[last] := TsOf(cells[last], round)]
  }

  function RowsOf(columns: seq<Bytes>, rows: seq<seq<Cell>>, round: Rounding): seq<map<Bytes, TsValue>> {
    if rows == [] then []
    else
      var last := rows[|rows| - 1];
      RowsOf(columns, rows[..|rows| - 1], round)
      + [if |last| == |columns| then RowOf(columns, last, round) else map[]]
  }

  function TableOf(t: Frames.Table, round: Rounding): TsResult {
    TsResult(t.columns, RowsOf(t.columns, t.rows, round))
  }

  lemma RowOfSnoc(columns: seq<Bytes>, j: nat, cells: seq<Cell>, c: Cell, round: Rounding)
    requires j < |columns| && |cells| == j
    ensures RowOf(columns[..j + 1], cells + [c], round)
         == RowOf(columns[..j], cells, round)[columns[j] := TsOf(c, round)]
  {
    assert columns[..j + 1][..j] == columns[..j] && (cells + [c])[..j] == cells;
  }

  lemma RowsOfSnoc(columns: seq<Bytes>, rows: seq<seq<Cell>>, cells: seq<Cell>, round: Rounding)
    requires |cells| == |columns|
    ensures RowsOf(columns, rows + [cells], round) == RowsOf(columns, rows, round) + [RowOf(columns, cells, round)]
  {
    assert (rows + [cells])[..|rows|] == rows;
  }

  /** Under every name, the value the Go reader gives. */
  ghost predicate SameRow(g: map<Bytes, GoReaders.GoValue>, t: map<Bytes, TsValue>, round: Rounding) {
    t.Keys == g.Keys && forall name | name in g :: SameValue(g[name], t[name], round)
  }

  lemma {:induction false} RowsAgree(columns: seq<Bytes>, cells: seq<Cell>, round: Rounding)
    requires |cells| == |columns| && forall j | 0 <= j < |cells| :: Fits(cells[j])
    ensures SameRow(Frames.RowOf(columns, cells), RowOf(columns, cells, round), round)
  {
    if columns == [] { return; }
    var last := |columns| - 1;
    RowsAgree(columns[..last], cells[..last], round);
    ReadersAgree(cells[last], round);
  }

  /** Both readers give the same rows of a result. */
  lemma {:induction false} TablesAgree(columns: seq<Bytes>, rows: seq<seq<Cell>>, round: Rounding)
    requires forall i | 0 <= i < |rows| :: |rows[i]| == |columns| && AllFit(rows[i])
    ensures |RowsOf(columns, rows, round)| == |Frames.GoRows(columns, rows)|
    ensures forall i | 0 <= i < |RowsOf(columns, rows, round)| ::
      SameRow(Frames.GoRows(columns, rows)[i], RowsOf(columns, rows, round)[i], round)
  {
    if rows == [] { return; }
    var last := rows[|rows| - 1];
    TablesAgree(columns, rows[..|rows| - 1], round);
    forall j | 0 <= j < |last| ensures Fits(last[j]) { AllFitAt(last, j); }
    RowsAgree(columns, last, round);
  }

  /** What a generated factory does: one value for each of its columns. */
  method MakeRow(factory: seq<Bytes>, r: Reader) returns (row: map<Bytes, TsValue>)
    requires r.off <= |r.bytes| && ReadCells(r.Rest(), |factory|).Some?
    modifies r`off
    ensures r.off <= |r.bytes|
    ensures var (cells, s) := ReadCells(old(r.Rest()), |factory|).value;
      |cells| == |factory| && row == RowOf(factory, cells, r.round) && r.Rest() == s
  {
    row := map[];
    ghost var cells: seq<Cell> := [];
    var j := 0;
    AfterNone(ReadCells(r.Rest(), |factory|));
    while j < |factory|
      invariant j <= |factory| && r.off <= |r.bytes| && |cells| == j && row == RowOf(factory[..j], cells, r.round)
      invariant ReadCells(old(r.Rest()), |factory|) == After(cells, ReadCells(r.Rest(), |factory| - j))
    {
      ghost var c := ReadCell(r.Rest()).value.0;
      CellsStep(cells, r.Rest(), |factory| - j);
      var v := r.ReadValue();
      RowOfSnoc(factory, j, cells, c, r.round);
      row, cells, j := row[factory[j] := v], cells + [c], j + 1;
    }
    AfterEnd(cells, r.Rest());
    assert factory[..|factory|] == factory;
  }

  method MakeRows(factory: seq<Bytes>, n: nat, r: Reader) returns (rows: seq<map<Bytes, TsValue>>)
    requires r.off <= |r.bytes| && Frames.ReadRows(r.Rest(), |factory|, n).Some?
    modifies r`off
    ensures r.off <= |r.bytes|
    ensures var (cells, s) := Frames.ReadRows(old(r.Rest()), |factory|, n).value;
      rows == RowsOf(factory, cells, r.round) && r.Rest() == s
  {
    rows := [];
    ghost var read: seq<seq<Cell>> := [];
    var i := 0;
    AfterNone(Frames.ReadRows(r.Rest(), |factory|, n));
    while i < n
      invariant i <= n && r.off <= |r.bytes| && rows == RowsOf(factory, read, r.round)
      invariant Frames.ReadRows(old(r.Rest()), |factory|, n) == After(read, Frames.ReadRows(r.Rest(), |factory|, n - i))
    {
      ghost var cells := ReadCells(r.Rest(), |factory|).value.0;
      Frames.RowsStep(read, r.Rest(), |factory|, n - i);
      var row := MakeRow(factory, r);
      RowsOfSnoc(factory, read, cells, r.round);
      rows, read, i := rows + [row], read + [cells], i + 1;
    }
    AfterEnd(read, r.Rest());
  }

  ghost predicate AllPlain(cache: FactoryCache)
    reads cache
  {
    forall key | key in cache.factories :: Plain(cache.factories[key])
  }

  predicate Marked(buf: Bytes) { |buf| >= 4 && buf[..4] == Frames.MAGIC }

  /** A buffer without the magic throws, here `None`; one the encoder laid out
      yields its table, while no column name seen holds the separator. */
  method DecodeResult(buf: Bytes, round: Rounding, cache: FactoryCache) returns (result: Option<TsResult>)
    requires cache.Valid() && AllPlain(cache)
    requires Marked(buf) ==> Frames.ReadTable(buf).Some? && Plain(Frames.ReadTable(buf).value.0.columns)
    modifies cache
    ensures cache.Valid() && AllPlain(cache)
    ensures result == if Marked(buf) then Some(TableOf(Frames.ReadTable(buf).value.0, round)) else None
  {
    if !Marked(buf) { return None; }
    var r := new Reader(buf, round);
    var magic := r.Raw(4);
    var width := r.U32();
    Frames.ReadSegmentsCount(r.Rest(), width);
    var columns := r.Segments(width);
    var n := r.U32();
    var factory := columns;
    if columns != [] { factory := cache.RowFactory(columns); }
    var rows := MakeRows(factory, n, r);
    result := Some(TsResult(columns, rows));
  }
}
