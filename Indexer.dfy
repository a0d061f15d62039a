/** Linear index <-> cell of a block, under the two fill directions of
    XlFillDirection:
    - ColumnFirst: across the columns of a row before the next row (row-major);
    - RowFirst: down the rows of a column before the next column (column-major). */
module Indexer {
  import opened Outcomes
  import opened CellAddresses
  import RangeArithmetic
  import Arithmetic

  datatype FillDirection = ColumnFirst | RowFirst

  /** Row and column offset, from the top-left cell, of the cell at an index. */
  function Position(a: CellAddress, index: nat, direction: FillDirection): (p: (nat, nat))
    requires index < Count(a)
    ensures p.0 < a.rowCount && p.1 < a.columnCount
  {
    var w, h := a.columnCount, a.rowCount;
    match direction
    case ColumnFirst => Split(index, w, h)
    case RowFirst =>
      Arithmetic.MulCommutes(h, w);
      var q := Split(index, h, w);
      (q.1, q.0)
  }

  /** Quotient and remainder of an index in a grid w wide and h high. */
  function Split(index: nat, w: nat, h: nat): (p: (nat, nat))
    requires w >= 1 && index < h * w
    ensures p.0 < h && p.1 < w
    ensures p.0 * w + p.1 == index
  {
    Arithmetic.QuotientBound(index, w, h);
    (index / w, index % w)
  }

  /** The index of the cell at a row and column offset: the inverse of Position. */
  function IndexAt(a: CellAddress, rowOffset: nat, columnOffset: nat, direction: FillDirection): (index: nat)
    requires rowOffset < a.rowCount && columnOffset < a.columnCount
    ensures index < Count(a)
  {
    match direction
    case ColumnFirst =>
      Arithmetic.LinearBound(a.columnCount, a.rowCount, rowOffset, columnOffset);
      rowOffset * a.columnCount + columnOffset
    case RowFirst =>
      Arithmetic.LinearBound(a.rowCount, a.columnCount, columnOffset, rowOffset);
      columnOffset * a.rowCount + rowOffset
  }

  lemma IndexAtPosition(a: CellAddress, index: nat, direction: FillDirection)
    requires index < Count(a)
    ensures var p := Position(a, index, direction); IndexAt(a, p.0, p.1, direction) == index
  {
  }

  lemma PositionIndexAt(a: CellAddress, rowOffset: nat, columnOffset: nat, direction: FillDirection)
    requires rowOffset < a.rowCount && columnOffset < a.columnCount
    ensures Position(a, IndexAt(a, rowOffset, columnOffset, direction), direction) == (rowOffset, columnOffset)
  {
    match direction
    case ColumnFirst => Arithmetic.DivModUnique(rowOffset, columnOffset, a.columnCount);
    case RowFirst => Arithmetic.DivModUnique(columnOffset, rowOffset, a.rowCount);
  }

  /** CellAddress.GetCell(index, direction): the single cell at a linear
      index; IndexOutOfRange unless 0 <= index < Count. */
  function GetCell(a: CellAddress, index: int, direction: FillDirection): (r: Result<CellAddress>)
    ensures r.Ok? <==> 0 <= index < Count(a)
    ensures r.Err? ==> r.error == IndexOutOfRange
    ensures r.Ok? ==> IsSingleCell(r.value) && r.value.sheet == a.sheet
    ensures r.Ok? ==> ContainsCell(a, r.value.rowFirst, r.value.columnFirst)
  {
    if index < 0 || index >= Count(a) then Err(IndexOutOfRange)
    else
      var p := Position(a, index, direction);
      Ok(Cell(a.sheet, a.rowFirst + p.0, a.columnFirst + p.1))
  }

  /** The index mapping written out: ColumnFirst moves across a row first
      (row offset index / width, column offset index % width), RowFirst
      moves down a column first (row offset index % height, column offset
      index / height). */
  lemma GetCellByDivision(a: CellAddress, index: nat)
    requires index < Count(a)
    ensures var c := GetCell(a, index, ColumnFirst).value;
      c.rowFirst - a.rowFirst == index / a.columnCount && c.columnFirst - a.columnFirst == index % a.columnCount
    ensures var c := GetCell(a, index, RowFirst).value;
      c.rowFirst - a.rowFirst == index % a.rowCount && c.columnFirst - a.columnFirst == index / a.rowCount
  {
  }

  /** CellAddress.NextCell(index, direction): steps from the block's
      top-left cell by the offset of the index. */
  function NextCell(a: CellAddress, index: int, direction: FillDirection): (r: Result<CellAddress>)
    ensures r == GetCell(a, index, direction)
  {
    if index < 0 || index >= Count(a) then Err(IndexOutOfRange)
    else
      var p := Position(a, index, direction);
      RangeArithmetic.Offset(Cell(a.sheet, a.rowFirst, a.columnFirst), p.0, p.1)
  }

  /** The index of a single cell inside the block, the inverse of GetCell;
      IndexOutOfRange for a cell outside it. Only the argument's top-left
      corner is read: its sheet and extents are ignored, so a block or a
      cell on another sheet is indexed by that corner alone. */
  function IndexOfCell(a: CellAddress, cell: CellAddress, direction: FillDirection): (r: Result<nat>)
    ensures r.Ok? <==> ContainsCell(a, cell.rowFirst, cell.columnFirst)
    ensures r.Ok? ==> r.value < Count(a)
    ensures r.Err? ==> r.error == IndexOutOfRange
  {
    if ContainsCell(a, cell.rowFirst, cell.columnFirst) then
      Ok(IndexAt(a, cell.rowFirst - a.rowFirst, cell.columnFirst - a.columnFirst, direction))
    else Err(IndexOutOfRange)
  }

  /** Every index of the block names a cell whose index is that index. */
  lemma IndexOfGetCell(a: CellAddress, index: nat, direction: FillDirection)
    requires index < Count(a)
    ensures IndexOfCell(a, GetCell(a, index, direction).value, direction) == Ok(index)
  {
    IndexAtPosition(a, index, direction);
  }

  /** Every single cell of the block, on its sheet, is reached by its index. */
  lemma GetCellIndexOf(a: CellAddress, cell: CellAddress, direction: FillDirection)
    requires IsSingleCell(cell) && cell.sheet == a.sheet
    requires ContainsCell(a, cell.rowFirst, cell.columnFirst)
    ensures GetCell(a, IndexOfCell(a, cell, direction).value, direction) == Ok(cell)
  {
    PositionIndexAt(a, cell.rowFirst - a.rowFirst, cell.columnFirst - a.columnFirst, direction);
  }

  /** Distinct indices name distinct cells. */
  lemma GetCellInjective(a: CellAddress, i: nat, j: nat, direction: FillDirection)
    requires i < Count(a) && j < Count(a) && i != j
    ensures GetCell(a, i, direction) != GetCell(a, j, direction)
  {
    IndexOfGetCell(a, i, direction);
    IndexOfGetCell(a, j, direction);
  }

  /** The order each direction enumerates in: a later index is a later cell
      in row-then-column order (ColumnFirst) or column-then-row order (RowFirst). */
  predicate Before(p: CellAddress, q: CellAddress, direction: FillDirection) {
    match direction
    case ColumnFirst =>
      p.rowFirst < q.rowFirst || (p.rowFirst == q.rowFirst && p.columnFirst < q.columnFirst)
    case RowFirst =>
      p.columnFirst < q.columnFirst || (p.columnFirst == q.columnFirst && p.rowFirst < q.rowFirst)
  }

  lemma GetCellOrder(a: CellAddress, i: nat, j: nat, direction: FillDirection)
    requires i < j < Count(a)
    ensures Before(GetCell(a, i, direction).value, GetCell(a, j, direction).value, direction)
  {
    var p, q := Position(a, i, direction), Position(a, j, direction);
    IndexAtPosition(a, i, direction);
    IndexAtPosition(a, j, direction);
    var c, d := GetCell(a, i, direction).value, GetCell(a, j, direction).value;
    if !Before(c, d, direction) {
      match direction
      case ColumnFirst =>
        if p == q {
        } else {
          Arithmetic.LinearOrder(a.columnCount, q.0, q.1, p.0, p.1);
        }
      case RowFirst =>
        if p == q {
        } else {
          Arithmetic.LinearOrder(a.rowCount, q.1, q.0, p.1, p.0);
        }
    }
  }

  /** CellAddress.GetCells: every cell of the block, in fill order. */
  function GetCells(a: CellAddress, direction: FillDirection := ColumnFirst): (cells: seq<CellAddress>)
    ensures |cells| == Count(a)
    ensures forall k :: 0 <= k < |cells| ==> Ok(cells[k]) == GetCell(a, k, direction)
  {
    seq(Count(a), k requires 0 <= k < Count(a) => GetCell(a, k, direction).value)
  }

  /** GetCells lists each cell of the block exactly once. */
  lemma GetCellsEnumerates(a: CellAddress, direction: FillDirection)
    ensures forall i, j :: 0 <= i < j < Count(a) ==> GetCells(a, direction)[i] != GetCells(a, direction)[j]
    ensures forall row: nat, column: nat :: ContainsCell(a, row, column) ==> Cell(a.sheet, row, column) in GetCells(a, direction)
  {
    var cells := GetCells(a, direction);
    forall i, j | 0 <= i < j < Count(a) ensures cells[i] != cells[j] {
      GetCellInjective(a, i, j, direction);
    }
    forall row: nat, column: nat | ContainsCell(a, row, column) ensures Cell(a.sheet, row, column) in cells {
      var cell := Cell(a.sheet, row, column);
      GetCellIndexOf(a, cell, direction);
      assert cells[IndexOfCell(a, cell, direction).value] == cell;
    }
  }
}
