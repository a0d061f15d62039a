/** The CellAddress value: a rectangular block of cells, optionally scoped
    to a named sheet, stored as its top-left cell (zero-based) and its
    extents. Every operation of the algebra yields a new value. */
module CellAddresses {
  import opened Outcomes
  import ColumnCodec
  import Decimal
  import Arithmetic

  /** A row or column extent: a range is never empty. */
  type Extent = n: nat | n >= 1 witness 1

  datatype CellAddress = CellAddress(
    sheet: Option<string>,
    rowFirst: nat,
    columnFirst: nat,
    rowCount: Extent,
    columnCount: Extent)

  /** The number of cells in the range. */
  function Count(a: CellAddress): (n: nat)
    ensures n >= a.rowCount && n >= a.columnCount
    ensures n == 1 <==> IsSingleCell(a)
  {
    var n := a.rowCount * a.columnCount;
    assert n >= a.rowCount * 1 && n >= 1 * a.columnCount by {
      Arithmetic.MulMonotone(1, a.columnCount, a.rowCount);
      Arithmetic.MulMonotone(1, a.rowCount, a.columnCount);
    }
    assert a.rowCount > 1 || a.columnCount > 1 ==> n > 1;
    n
  }

  /** Zero-based index of the bottom row. */
  function RowLast(a: CellAddress): nat {
    a.rowFirst + a.rowCount - 1
  }

  /** Zero-based index of the rightmost column. */
  function ColumnLast(a: CellAddress): nat {
    a.columnFirst + a.columnCount - 1
  }

  predicate IsSingleCell(a: CellAddress) {
    a.rowCount == 1 && a.columnCount == 1
  }

  /** The single cell at a zero-based row and column. */
  function Cell(sheet: Option<string>, row: nat, column: nat): CellAddress {
    CellAddress(sheet, row, column, 1, 1)
  }

  /** The cell at (row, column) lies inside the range. */
  predicate ContainsCell(a: CellAddress, row: nat, column: nat) {
    a.rowFirst <= row <= RowLast(a) && a.columnFirst <= column <= ColumnLast(a)
  }

  /** Every cell of inner lies inside outer (sheets are not compared). */
  predicate Covers(outer: CellAddress, inner: CellAddress) {
    && outer.rowFirst <= inner.rowFirst && RowLast(inner) <= RowLast(outer)
    && outer.columnFirst <= inner.columnFirst && ColumnLast(inner) <= ColumnLast(outer)
  }

  /** The characters the canonical rendering is made of. */
  predicate IsRenderChar(c: char) {
    c == '$' || ColumnCodec.IsUpper(c) || Decimal.IsDigit(c)
  }

  predicate IsRenderText(s: string) {
    forall k :: 0 <= k < |s| ==> IsRenderChar(s[k])
  }

  lemma RenderTextJoin(s: string, t: string)
    requires IsRenderText(s) && IsRenderText(t)
    ensures IsRenderText(s + t)
  {
    assert forall k :: |s| <= k < |s + t| ==> (s + t)[k] == t[k - |s|];
  }

  /** Rendered text never holds the range separator ':' or the sheet
      separator '!'. */
  lemma RenderTextHasNoSeparator(s: string)
    requires IsRenderText(s)
    ensures ':' !in s && '!' !in s
  {
    assert forall k :: 0 <= k < |s| ==> IsRenderChar(s[k]);
  }

  /** One corner as text: the column label, then the one-based row
      number, each optionally preceded by the absolute marker '$'. */
  function CornerText(row: nat, column: nat, columnMarker: bool, rowMarker: bool): (s: string)
    ensures |s| >= 2 && IsRenderText(s)
  {
    var letters := ColumnCodec.EncodeColumn(column);
    var digits := Decimal.Show(row + 1);
    var m1: string := if columnMarker then "$" else "";
    var m2: string := if rowMarker then "$" else "";
    RenderTextJoin(m1, letters);
    RenderTextJoin(m1 + letters, m2);
    RenderTextJoin(m1 + letters + m2, digits);
    m1 + letters + m2 + digits
  }

  /** One corner in absolute form: $C$5. */
  function CellText(row: nat, column: nat): (s: string)
    ensures ':' !in s && '!' !in s
  {
    var s := CornerText(row, column, true, true);
    assert forall k :: 0 <= k < |s| ==> IsRenderChar(s[k]);
    s
  }

  /** The canonical, sheet-free rendering: $C$5 for a single cell,
      $A$1:$F$5 for a block (one-based rows in the text). */
  function LocalAddress(a: CellAddress): (s: string)
    ensures '!' !in s
    ensures ':' in s <==> !IsSingleCell(a)
  {
    var first := CellText(a.rowFirst, a.columnFirst);
    if IsSingleCell(a) then
      first
    else
      var last := CellText(RowLast(a), ColumnLast(a));
      var s := first + ":" + last;
      assert s[|first|] == ':';
      assert s == first + (":" + last);
      s
  }

  /** The anchor of a comes no later than b's: earlier row, or the same
      row and a column no further right. */
  predicate AnchorNotAfter(a: CellAddress, b: CellAddress) {
    a.rowFirst < b.rowFirst || (a.rowFirst == b.rowFirst && a.columnFirst <= b.columnFirst)
  }

  /** The later of two addresses, ordered by row and then by column of
      their top-left cells; on equal anchors the argument wins. */
  function Max(a: CellAddress, other: CellAddress): (m: CellAddress)
    ensures m == a || m == other
    ensures AnchorNotAfter(a, m) && AnchorNotAfter(other, m)
    ensures m == a ==> !AnchorNotAfter(a, other) || a == other
  {
    if AnchorNotAfter(a, other) then other else a
  }
}
