/** The outcomes the CellAddress unit tests assert, stated on the model:
    each lemma is one test method. Address literals are written as the
    tests write them, without absolute markers. */
module AssertedBehaviour {
  import opened Outcomes
  import opened CellAddresses
  import opened AddressParser
  import opened RangeArithmetic
  import opened Indexer

  /** A corner as the tests write it, without absolute markers: "C4". */
  function Plain(p: (nat, nat)): string {
    CornerText(p.0, p.1, false, false)
  }

  /** A two-corner address as the tests write it: "Sheet1!A1:B2". */
  function PlainBlock(sheet: Option<string>, p: (nat, nat), q: (nat, nat)): string {
    SheetPrefix(sheet) + (Plain(p) + ":" + Plain(q))
  }

  lemma ParsePlain(p: (nat, nat))
    ensures Parse(Plain(p)) == Ok(Cell(None, p.0, p.1))
  {
    ParseCornerText(p.0, p.1, false, false);
    ParseCorner(None, Plain(p), p);
    assert SheetPrefix(None) + Plain(p) == Plain(p);
  }

  lemma ParsePlainBlock(sheet: Option<string>, p: (nat, nat), q: (nat, nat))
    requires sheet != Some("")
    ensures Parse(PlainBlock(sheet, p, q)) == Ok(Corners(sheet, p, q))
  {
    ParseCornerText(p.0, p.1, false, false);
    ParseCornerText(q.0, q.1, false, false);
    ParseCornerPair(sheet, Plain(p), Plain(q), p, q);
  }

  /** Parse("A1:F5") is six columns by five rows at the origin. */
  lemma ParseA1F5()
    ensures Parse("A1:F5") == Ok(CellAddress(None, 0, 0, 5, 6))
  {
    assert Corners(None, (0, 0), (4, 5)) == CellAddress(None, 0, 0, 5, 6);
    assert PlainBlock(None, (0, 0), (4, 5)) == "A1:F5";
    ParsePlainBlock(None, (0, 0), (4, 5));
  }

  /** Parse("Sheet1!A1:B2"): two by two at the origin of Sheet1. */
  lemma ParseSheet1A1B2()
    ensures Parse("Sheet1!A1:B2") == Ok(CellAddress(Some("Sheet1"), 0, 0, 2, 2))
  {
    assert Corners(Some("Sheet1"), (0, 0), (1, 1)) == CellAddress(Some("Sheet1"), 0, 0, 2, 2);
    assert PlainBlock(Some("Sheet1"), (0, 0), (1, 1)) == "Sheet1!A1:B2";
    ParsePlainBlock(Some("Sheet1"), (0, 0), (1, 1));
  }

  /** Parse("Sheet1!A1:F10"): six columns by ten rows at the origin of Sheet1. */
  lemma ParseSheet1A1F10()
    ensures Parse("Sheet1!A1:F10") == Ok(CellAddress(Some("Sheet1"), 0, 0, 10, 6))
  {
    assert Corners(Some("Sheet1"), (0, 0), (9, 5)) == CellAddress(Some("Sheet1"), 0, 0, 10, 6);
    assert PlainBlock(Some("Sheet1"), (0, 0), (9, 5)) == "Sheet1!A1:F10";
    ParsePlainBlock(Some("Sheet1"), (0, 0), (9, 5));
  }

  lemma ParseA1()
    ensures Parse("A1") == Ok(Cell(None, 0, 0))
  {
    assert Plain((0, 0)) == "A1";
    ParsePlain((0, 0));
  }

  lemma ParseA2()
    ensures Parse("A2") == Ok(Cell(None, 1, 0))
  {
    assert Plain((1, 0)) == "A2";
    ParsePlain((1, 0));
  }

  lemma ParseB2()
    ensures Parse("B2") == Ok(Cell(None, 1, 1))
  {
    assert Plain((1, 1)) == "B2";
    ParsePlain((1, 1));
  }

  lemma ParseC4()
    ensures Parse("C4") == Ok(Cell(None, 3, 2))
  {
    assert Plain((3, 2)) == "C4";
    ParsePlain((3, 2));
  }

  lemma ParseD5()
    ensures Parse("D5") == Ok(Cell(None, 4, 3))
  {
    assert Plain((4, 3)) == "D5";
    ParsePlain((4, 3));
  }

  lemma ParseF3()
    ensures Parse("F3") == Ok(Cell(None, 2, 5))
  {
    assert Plain((2, 5)) == "F3";
    ParsePlain((2, 5));
  }

  /** The cell at a row and column offset of a block is reached by its index. */
  lemma CellAt(a: CellAddress, index: nat, direction: FillDirection, rowOffset: nat, columnOffset: nat)
    requires rowOffset < a.rowCount && columnOffset < a.columnCount
    requires index == IndexAt(a, rowOffset, columnOffset, direction)
    ensures GetCell(a, index, direction) == Ok(Cell(a.sheet, a.rowFirst + rowOffset, a.columnFirst + columnOffset))
  {
    GetCellIndexOf(a, Cell(a.sheet, a.rowFirst + rowOffset, a.columnFirst + columnOffset), direction);
  }

  /** Index 1 across and index 2 down A1:F5, on any sheet. */
  lemma CellsOfA1F5(sheet: Option<string>)
    ensures GetCell(CellAddress(sheet, 0, 0, 5, 6), 1, ColumnFirst) == Ok(Cell(sheet, 0, 1))
    ensures GetCell(CellAddress(sheet, 0, 0, 5, 6), 2, RowFirst) == Ok(Cell(sheet, 2, 0))
  {
    CellAt(CellAddress(sheet, 0, 0, 5, 6), 1, ColumnFirst, 0, 1);
    CellAt(CellAddress(sheet, 0, 0, 5, 6), 2, RowFirst, 2, 0);
  }

  lemma RenderB1A3(sheet: Option<string>)
    ensures LocalAddress(Cell(sheet, 0, 1)) == "$B$1"
    ensures LocalAddress(Cell(sheet, 2, 0)) == "$A$3"
  {
  }

  /** TestGetCellWithIndex. */
  lemma GetCellWithIndex()
    ensures Parse("A1:F5") == Ok(CellAddress(None, 0, 0, 5, 6))
    ensures LocalAddress(GetCell(Parse("A1:F5").value, 1, ColumnFirst).value) == "$B$1"
    ensures LocalAddress(GetCell(Parse("A1:F5").value, 2, RowFirst).value) == "$A$3"
  {
    ParseA1F5();
    CellsOfA1F5(None);
    RenderB1A3(None);
  }

  /** The five offsets of C4 the tests take, on any sheet. */
  lemma OffsetsOfC4(sheet: Option<string>)
    ensures Offset(Cell(sheet, 3, 2), 1) == Ok(Cell(sheet, 4, 2))
    ensures Offset(Cell(sheet, 3, 2), 0, 1) == Ok(Cell(sheet, 3, 3))
    ensures Offset(Cell(sheet, 3, 2), 1, 1) == Ok(Cell(sheet, 4, 3))
    ensures Offset(Cell(sheet, 3, 2), -1, -2) == Ok(Cell(sheet, 2, 0))
    ensures Offset(Cell(sheet, 3, 2), -10) == Err(IndexOutOfRange)
  {
  }

  lemma RenderC5D4(sheet: Option<string>)
    ensures LocalAddress(Cell(sheet, 4, 2)) == "$C$5"
    ensures LocalAddress(Cell(sheet, 3, 3)) == "$D$4"
  {
  }

  lemma RenderD5A3(sheet: Option<string>)
    ensures LocalAddress(Cell(sheet, 4, 3)) == "$D$5"
    ensures LocalAddress(Cell(sheet, 2, 0)) == "$A$3"
  {
  }

  /** TestOffset, on C4. */
  lemma OffsetOfC4()
    ensures Parse("C4") == Ok(Cell(None, 3, 2))
    ensures LocalAddress(Offset(Parse("C4").value, 1).value) == "$C$5"
    ensures LocalAddress(Offset(Parse("C4").value, 0, 1).value) == "$D$4"
    ensures LocalAddress(Offset(Parse("C4").value, 1, 1).value) == "$D$5"
    ensures LocalAddress(Offset(Parse("C4").value, -1, -2).value) == "$A$3"
    ensures Offset(Parse("C4").value, -10) == Err(IndexOutOfRange)
  {
    ParseC4();
    OffsetsOfC4(None);
    RenderC5D4(None);
    RenderD5A3(None);
  }

  /** TestMax: A2 is later than A1. */
  lemma MaxOfA1A2()
    ensures Parse("A1") == Ok(Cell(None, 0, 0)) && Parse("A2") == Ok(Cell(None, 1, 0))
    ensures Max(Parse("A1").value, Parse("A2").value) == Parse("A2").value
  {
    ParseA1();
    ParseA2();
  }

  /** Bounds of four addresses is three hulls folded from the left. */
  lemma BoundsOfFourAddresses(cells: seq<CellAddress>)
    requires |cells| == 4
    ensures Bounds(cells) == Hull(Hull(Hull(cells[0], cells[1]), cells[2]), cells[3])
  {
    var three, two := cells[..3], cells[..2];
    assert three[..2] == two && three[2] == cells[2];
    assert two[..1] == [cells[0]] && two[1] == cells[1];
    assert Bounds(two) == Hull(cells[0], cells[1]);
    assert Bounds(three) == Hull(Bounds(two), cells[2]);
  }

  /** The three hulls folded over A1, B2, D5 and F3, on any sheet. */
  lemma HullOfA1B2(sheet: Option<string>)
    ensures Hull(Cell(sheet, 0, 0), Cell(sheet, 1, 1)) == CellAddress(sheet, 0, 0, 2, 2)
  {
    var h := Hull(Cell(sheet, 0, 0), Cell(sheet, 1, 1));
    assert h.rowFirst == 0 && h.columnFirst == 0;
  }

  lemma HullWithD5(sheet: Option<string>)
    ensures Hull(CellAddress(sheet, 0, 0, 2, 2), Cell(sheet, 4, 3)) == CellAddress(sheet, 0, 0, 5, 4)
  {
  }

  lemma HullWithF3(sheet: Option<string>)
    ensures Hull(CellAddress(sheet, 0, 0, 5, 4), Cell(sheet, 2, 5)) == CellAddress(sheet, 0, 0, 5, 6)
  {
  }

  /** The bounding block of A1, B2, D5 and F3, on any sheet. */
  lemma BoundsOfFour(sheet: Option<string>)
    ensures Bounds([Cell(sheet, 0, 0), Cell(sheet, 1, 1), Cell(sheet, 4, 3), Cell(sheet, 2, 5)])
      == CellAddress(sheet, 0, 0, 5, 6)
  {
    HullOfA1B2(sheet);
    HullWithD5(sheet);
    HullWithF3(sheet);
    BoundsOfFourAddresses([Cell(sheet, 0, 0), Cell(sheet, 1, 1), Cell(sheet, 4, 3), Cell(sheet, 2, 5)]);
  }

  lemma RenderA1F5(sheet: Option<string>)
    ensures LocalAddress(CellAddress(sheet, 0, 0, 5, 6)) == "$A$1:$F$5"
  {
  }

  /** TestGetRange: the bounding block of A1, B2, D5 and F3. */
  lemma GetRangeOfFourCells()
    ensures Parse("A1") == Ok(Cell(None, 0, 0)) && Parse("B2") == Ok(Cell(None, 1, 1))
    ensures Parse("D5") == Ok(Cell(None, 4, 3)) && Parse("F3") == Ok(Cell(None, 2, 5))
    ensures GetRange([Parse("A1").value, Parse("B2").value, Parse("D5").value, Parse("F3").value]).Ok?
    ensures LocalAddress(GetRange([Parse("A1").value, Parse("B2").value, Parse("D5").value, Parse("F3").value]).value)
      == "$A$1:$F$5"
  {
    ParseA1();
    ParseB2();
    ParseD5();
    ParseF3();
    BoundsOfFour(None);
    RenderA1F5(None);
  }

  /** Index 1 down and index 1 across A1:B2, on any sheet. */
  lemma CellsOfA1B2(sheet: Option<string>)
    ensures GetCell(CellAddress(sheet, 0, 0, 2, 2), 1, RowFirst) == Ok(Cell(sheet, 1, 0))
    ensures GetCell(CellAddress(sheet, 0, 0, 2, 2), 1, ColumnFirst) == Ok(Cell(sheet, 0, 1))
  {
    CellAt(CellAddress(sheet, 0, 0, 2, 2), 1, RowFirst, 1, 0);
    CellAt(CellAddress(sheet, 0, 0, 2, 2), 1, ColumnFirst, 0, 1);
  }

  lemma RenderA2B1(sheet: Option<string>)
    ensures LocalAddress(Cell(sheet, 1, 0)) == "$A$2"
    ensures LocalAddress(Cell(sheet, 0, 1)) == "$B$1"
  {
  }

  /** TestGetCell. */
  lemma GetCellOnSheet1()
    ensures Parse("Sheet1!A1:B2") == Ok(CellAddress(Some("Sheet1"), 0, 0, 2, 2))
    ensures var cell := Parse("Sheet1!A1:B2").value;
      && Count(cell) == 4 && cell.columnFirst == 0 && cell.rowFirst == 0
      && LocalAddress(GetCell(cell, 1, RowFirst).value) == "$A$2"
      && LocalAddress(GetCell(cell, 1, ColumnFirst).value) == "$B$1"
  {
    ParseSheet1A1B2();
    CellsOfA1B2(Some("Sheet1"));
    RenderA2B1(Some("Sheet1"));
  }

  /** TestNextCell. */
  lemma NextCellOnSheet1()
    ensures Parse("Sheet1!A1:B2") == Ok(CellAddress(Some("Sheet1"), 0, 0, 2, 2))
    ensures var cell := Parse("Sheet1!A1:B2").value;
      && Count(cell) == 4
      && LocalAddress(NextCell(cell, 1, RowFirst).value) == "$A$2"
      && LocalAddress(NextCell(cell, 1, ColumnFirst).value) == "$B$1"
  {
    GetCellOnSheet1();
  }

  /** TestGetCellForColumn and TestGetCellForRow: every index below Count
      of Sheet1!A1:F10 yields a cell, in both directions. */
  lemma GetCellForEveryIndex(direction: FillDirection)
    ensures Parse("Sheet1!A1:F10") == Ok(CellAddress(Some("Sheet1"), 0, 0, 10, 6))
    ensures Count(Parse("Sheet1!A1:F10").value) == 60
    ensures forall i :: 0 <= i < 60 ==> GetCell(Parse("Sheet1!A1:F10").value, i, direction).Ok?
  {
    ParseSheet1A1F10();
  }
}
