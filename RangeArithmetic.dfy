/** Offset and bounding range: translating an address by a row and column
    delta, and the smallest block covering several addresses. */
module RangeArithmetic {
  import opened Outcomes
  import opened CellAddresses

  /** CellAddress.Offset(rowDelta, columnDelta = 0): the same block moved;
      IndexOutOfRange when its top row or left column would be negative. */
  function Offset(a: CellAddress, rowDelta: int, columnDelta: int := 0): (r: Result<CellAddress>)
    ensures r.Ok? <==> a.rowFirst + rowDelta >= 0 && a.columnFirst + columnDelta >= 0
    ensures r.Err? ==> r.error == IndexOutOfRange
    ensures r.Ok? ==> r.value.sheet == a.sheet && r.value.rowCount == a.rowCount && r.value.columnCount == a.columnCount
    ensures r.Ok? ==> r.value.rowFirst - a.rowFirst == rowDelta && r.value.columnFirst - a.columnFirst == columnDelta
  {
    var row, column := a.rowFirst + rowDelta, a.columnFirst + columnDelta;
    if row < 0 || column < 0 then Err(IndexOutOfRange)
    else Ok(a.(rowFirst := row, columnFirst := column))
  }

  /** Offsetting back by the opposite deltas undoes an offset. */
  lemma OffsetInverse(a: CellAddress, rowDelta: int, columnDelta: int)
    requires Offset(a, rowDelta, columnDelta).Ok?
    ensures Offset(Offset(a, rowDelta, columnDelta).value, -rowDelta, -columnDelta) == Ok(a)
  {
  }

  /** Two successful offsets in a row are one offset by the summed deltas. */
  lemma OffsetCompose(a: CellAddress, r1: int, c1: int, r2: int, c2: int)
    requires Offset(a, r1, c1).Ok?
    ensures Offset(Offset(a, r1, c1).value, r2, c2) == Offset(a, r1 + r2, c1 + c2)
  {
  }

  /** The smaller block holding both a and b; it keeps a's sheet. */
  function Hull(a: CellAddress, b: CellAddress): (h: CellAddress)
    ensures h.sheet == a.sheet
    ensures Covers(h, a) && Covers(h, b)
  {
    var top := if a.rowFirst <= b.rowFirst then a.rowFirst else b.rowFirst;
    var left := if a.columnFirst <= b.columnFirst then a.columnFirst else b.columnFirst;
    var bottom := if RowLast(a) >= RowLast(b) then RowLast(a) else RowLast(b);
    var right := if ColumnLast(a) >= ColumnLast(b) then ColumnLast(a) else ColumnLast(b);
    CellAddress(a.sheet, top, left, bottom - top + 1, right - left + 1)
  }

  /** Any block holding both a and b holds their hull. */
  lemma HullMinimal(a: CellAddress, b: CellAddress, c: CellAddress)
    requires Covers(c, a) && Covers(c, b)
    ensures Covers(c, Hull(a, b))
  {
  }

  /** Bounding block of a non-empty sequence, folded from the left. */
  function Bounds(cells: seq<CellAddress>): (b: CellAddress)
    requires |cells| >= 1
    ensures b.sheet == cells[0].sheet
  {
    if |cells| == 1 then cells[0] else Hull(Bounds(cells[..|cells| - 1]), cells[|cells| - 1])
  }

  /** GetRange over a sequence of addresses: their bounding block, with the
      sheet of the first; EmptySequence when there are none. */
  function GetRange(cells: seq<CellAddress>): (r: Result<CellAddress>)
    ensures r.Ok? <==> |cells| >= 1
    ensures r.Err? ==> r.error == EmptySequence
    ensures r.Ok? ==> r.value.sheet == cells[0].sheet
  {
    if |cells| == 0 then Err(EmptySequence) else Ok(Bounds(cells))
  }

  lemma {:induction false} BoundsCovers(cells: seq<CellAddress>)
    requires |cells| >= 1
    ensures forall k :: 0 <= k < |cells| ==> Covers(Bounds(cells), cells[k])
  {
    if |cells| > 1 {
      var front := cells[..|cells| - 1];
      BoundsCovers(front);
      forall k | 0 <= k < |cells| - 1 ensures Covers(Bounds(cells), cells[k]) {
        assert cells[k] == front[k];
      }
    }
  }

  lemma {:induction false} BoundsMinimal(cells: seq<CellAddress>, c: CellAddress)
    requires |cells| >= 1
    requires forall k :: 0 <= k < |cells| ==> Covers(c, cells[k])
    ensures Covers(c, Bounds(cells))
  {
    if |cells| > 1 {
      var front := cells[..|cells| - 1];
      assert forall k :: 0 <= k < |front| ==> front[k] == cells[k];
      BoundsMinimal(front, c);
      HullMinimal(Bounds(front), cells[|cells| - 1], c);
    }
  }

  /** GetRange covers every input ... */
  lemma GetRangeCovers(cells: seq<CellAddress>)
    requires |cells| >= 1
    ensures GetRange(cells).Ok?
    ensures forall k :: 0 <= k < |cells| ==> Covers(GetRange(cells).value, cells[k])
  {
    BoundsCovers(cells);
  }

  /** ... and is covered by every block that covers all inputs: it is the
      smallest block holding them. */
  lemma GetRangeMinimal(cells: seq<CellAddress>, c: CellAddress)
    requires |cells| >= 1
    requires forall k :: 0 <= k < |cells| ==> Covers(c, cells[k])
    ensures Covers(c, GetRange(cells).value)
  {
    BoundsMinimal(cells, c);
  }
}
