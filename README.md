# CellAddress address algebra

A model of the spreadsheet address value behind the ExcelDna `CellAddress`
extensions. It models the value and its pure operations. It does not model the
calls that read or write a live workbook.

A `CellAddress` is a rectangular block of cells. It has:

- an optional sheet name;
- a zero-based top row (`rowFirst`) and left column (`columnFirst`);
- a row extent and a column extent, each at least one.

A single cell is the block with both extents equal to one.

The operations modelled are:

- `Parse`: A1-style text, with an optional `Sheet!` prefix, into the value;
- `LocalAddress`: the canonical absolute rendering, `$C$5` or `$A$1:$F$5`;
- `Count`;
- `Offset(rowDelta, columnDelta = 0)`;
- `GetCell` and `NextCell`: the cell at a linear index under the two
  `XlFillDirection` orders;
- `GetCells`: the enumeration of a block;
- `GetRange`: the bounding block of a sequence of addresses;
- `Max`;
- the column-label codec underneath rendering and parsing. It is bijective
  base 26: A = 0, …, Z = 25, AA = 26.

Each C# exception is an `Err` value of `Outcomes.Result`:

- `FormatError` for text the parser rejects;
- `IndexOutOfRange` for `IndexOutOfRangeException`;
- `EmptySequence` for `GetRange` over no addresses.

The modules are:

- `Outcomes`: Option and Result.
- `Arithmetic`: the few facts about products, division and remainder.
- `ColumnCodec`: column labels.
- `Decimal`: row numbers.
- `CellAddresses`: the value, `Count`, rendering and `Max`.
- `AddressParser`: `Parse`.
- `RangeArithmetic`: `Offset` and `GetRange`.
- `Indexer`: `GetCell`, `NextCell` and `GetCells`.
- `AssertedBehaviour`: each test method's expected outcomes, stated and proved on the model.

Decisions taken where the tests say nothing:

- **Parsing** accepts:
  - an optional `$` before the column label and before the row number, so that the rendering parses back;
  - column letters in either case;
  - leading zeros in the row number.
- **Sheet prefix.** The sheet name is everything before the last `!`. An empty sheet name is a `FormatError`, and so is row number 0.
- **Corner order.** The two corners of a block may come in either order.
- **`GetRange`** returns the sheet of its first address. Over an empty sequence it is `Err(EmptySequence)`.
- **`Max`** compares the top-left cells, by row and then by column. It returns the argument unless the receiver is strictly later.
- **`NextCell`** is an offset from the block's top-left cell by the position of the index. It is proved equal to `GetCell`.

## Model

| member | source | states |
|---|---|---|
| CellAddresses.Count | test/CellAddress.Tests.AddIn/CellAddressExtensionsTests.cs:93-94 | the cell count is at least each extent, and it is 1 exactly when the block is a single cell |
| CellAddresses.LocalAddress | test/CellAddress.Tests.AddIn/CellAddressExtensionsTests.cs:35-38 | the rendering never names a sheet, and it holds ':' exactly when the block has more than one cell |
| CellAddresses.CornerText | test/CellAddress.Tests.AddIn/CellAddressExtensionsTests.cs:35 | a rendered corner is at least two characters, all of them '$', capital letters or digits |
| CellAddresses.Max | test/CellAddress.Tests.AddIn/CellAddressExtensionsTests.cs:57-61 | the result is one of the two operands; neither operand's top-left cell is later than the result's; the receiver is returned only when it is strictly later or equal to the argument |
| ColumnCodec.EncodeColumn | test/CellAddress.Tests.AddIn/CellAddressExtensionsTests.cs:35 | every column index has a non-empty label of capital letters |
| ColumnCodec.DecodeColumn | test/CellAddress.Tests.AddIn/CellAddressExtensionsTests.cs:33 | a label decodes exactly when it is non-empty and all letters; anything else is a FormatError |
| ColumnCodec.DecodeEncode | test/CellAddress.Tests.AddIn/CellAddressExtensionsTests.cs:33-35 | decoding the label of any column index gives that index back |
| ColumnCodec.EncodeDecode | test/CellAddress.Tests.AddIn/CellAddressExtensionsTests.cs:33-35 | encoding the decoded value of any label gives back that label in capitals |
| ColumnCodec.EncodeInjective | test/CellAddress.Tests.AddIn/CellAddressExtensionsTests.cs:35 | distinct columns have distinct labels |
| Decimal.Show | test/CellAddress.Tests.AddIn/CellAddressExtensionsTests.cs:35 | a rendered row number is canonical decimal, starting with '0' only for zero |
| Decimal.ParseNat | test/CellAddress.Tests.AddIn/CellAddressExtensionsTests.cs:33 | a row number parses exactly when it is a non-empty run of digits |
| Decimal.ParseShow | test/CellAddress.Tests.AddIn/CellAddressExtensionsTests.cs:33-35 | parsing the rendering of any number gives the number back |
| Decimal.ShowValue | test/CellAddress.Tests.AddIn/CellAddressExtensionsTests.cs:33-35 | rendering the value of canonical decimal text gives the text back |
| AddressParser.ParseCellRef | test/CellAddress.Tests.AddIn/CellAddressExtensionsTests.cs:43 | a malformed corner is a FormatError |
| AddressParser.ParseCornerShape | test/CellAddress.Tests.AddIn/CellAddressExtensionsTests.cs:43 | a corner written as an optional '$', a label of letters in either case, an optional '$' and a row number of at least 1 (leading zeros allowed) parses to that row number minus one and that label's column |
| AddressParser.CornerShapeOfParse | test/CellAddress.Tests.AddIn/CellAddressExtensionsTests.cs:43 | every corner that parses is written in that grammar |
| AddressParser.ParseCellRefSyntax | test/CellAddress.Tests.AddIn/CellAddressExtensionsTests.cs:43 | a corner parses exactly when it is written in that grammar; anything else is a FormatError |
| AddressParser.CornerHasNoSeparator | test/CellAddress.Tests.AddIn/CellAddressExtensionsTests.cs:33 | a corner in the grammar holds neither ':' nor '!' |
| AddressParser.Corners | test/CellAddress.Tests.AddIn/CellAddressExtensionsTests.cs:33 | the block of two corners contains both, and every block containing both covers it |
| AddressParser.ParseLocal | test/CellAddress.Tests.AddIn/CellAddressExtensionsTests.cs:33 | the parsed block carries the given sheet; every failure is a FormatError |
| AddressParser.Parse | test/CellAddress.Tests.AddIn/CellAddressExtensionsTests.cs:93 | the result has a sheet exactly when the text holds '!', and that sheet is a non-empty prefix of the text; every failure is a FormatError |
| AddressParser.ParseLocalSyntax | test/CellAddress.Tests.AddIn/CellAddressExtensionsTests.cs:33 | the part after the sheet prefix parses exactly when it is one corner, or two corners joined by ':' |
| AddressParser.ParseOfSyntax | test/CellAddress.Tests.AddIn/CellAddressExtensionsTests.cs:93 | text made of an optional non-empty sheet name with its '!', then one or two corners, parses, to the local part read under that sheet |
| AddressParser.SyntaxOfParse | test/CellAddress.Tests.AddIn/CellAddressExtensionsTests.cs:93 | every text that parses is written in that grammar |
| AddressParser.ParseSyntax | test/CellAddress.Tests.AddIn/CellAddressExtensionsTests.cs:93 | Parse succeeds exactly on [SheetName '!'] Corner [':' Corner] with a non-empty sheet name; everything else is a FormatError |
| AddressParser.ParseCornerText | test/CellAddress.Tests.AddIn/CellAddressExtensionsTests.cs:43 | every rendered corner, with or without markers, parses to its zero-based row and column |
| AddressParser.ParseLocalAddress | test/CellAddress.Tests.AddIn/CellAddressExtensionsTests.cs:33-38 | the local part of the parser reads LocalAddress of any block back as that block, under whatever sheet the prefix named |
| AddressParser.ParseFullAddress | test/CellAddress.Tests.AddIn/CellAddressExtensionsTests.cs:93-96 | the sheet-prefixed rendering of any block with a non-empty sheet name, or no sheet, parses back to the same block |
| AddressParser.ParseThenRender | test/CellAddress.Tests.AddIn/CellAddressExtensionsTests.cs:43-44 | a corner written without markers parses to one cell, of count 1, whose rendering is that corner with both markers |
| AddressParser.ParseCorner | test/CellAddress.Tests.AddIn/CellAddressExtensionsTests.cs:43 | a single corner after an optional sheet prefix parses to that cell on that sheet |
| AddressParser.ParseCornerPair | test/CellAddress.Tests.AddIn/CellAddressExtensionsTests.cs:93-96 | two corners after an optional sheet prefix parse to the smallest block holding both, on that sheet |
| AddressParser.CornerOrderIrrelevant | test/CellAddress.Tests.AddIn/CellAddressExtensionsTests.cs:33 | swapping the two corners of a block's text, with or without a sheet prefix, does not change the parse |
| RangeArithmetic.Offset | test/CellAddress.Tests.AddIn/CellAddressExtensionsTests.cs:44-52 | succeeds exactly when the new top row and left column are non-negative, else IndexOutOfRange; it moves the block by the deltas and keeps the sheet and the extents |
| RangeArithmetic.OffsetInverse | test/CellAddress.Tests.AddIn/CellAddressExtensionsTests.cs:44-50 | offsetting back by the opposite deltas restores the block |
| RangeArithmetic.OffsetCompose | test/CellAddress.Tests.AddIn/CellAddressExtensionsTests.cs:44-50 | two successive offsets are one offset by the summed deltas |
| RangeArithmetic.Hull | test/CellAddress.Tests.AddIn/CellAddressExtensionsTests.cs:85-88 | the hull of two blocks covers both and keeps the first one's sheet |
| RangeArithmetic.HullMinimal | test/CellAddress.Tests.AddIn/CellAddressExtensionsTests.cs:85-88 | every block covering both covers their hull |
| RangeArithmetic.GetRange | test/CellAddress.Tests.AddIn/CellAddressExtensionsTests.cs:85-88 | succeeds exactly on a non-empty sequence, else EmptySequence; the result has the first address's sheet |
| RangeArithmetic.BoundsCovers | test/CellAddress.Tests.AddIn/CellAddressExtensionsTests.cs:85-88 | the bounding block covers every input |
| RangeArithmetic.BoundsMinimal | test/CellAddress.Tests.AddIn/CellAddressExtensionsTests.cs:85-88 | every block covering all inputs covers the bounding block |
| RangeArithmetic.GetRangeCovers | test/CellAddress.Tests.AddIn/CellAddressExtensionsTests.cs:85-88 | GetRange of a non-empty sequence succeeds and covers every input |
| RangeArithmetic.GetRangeMinimal | test/CellAddress.Tests.AddIn/CellAddressExtensionsTests.cs:85-88 | GetRange is covered by every block covering all inputs: it is the smallest |
| Indexer.Position | test/CellAddress.Tests.AddIn/CellAddressExtensionsTests.cs:34-37 | the offset of every index below Count lies inside the block's extents |
| Indexer.IndexAt | test/CellAddress.Tests.AddIn/CellAddressExtensionsTests.cs:121-122 | the index of every offset inside the block is below Count |
| Indexer.IndexAtPosition | test/CellAddress.Tests.AddIn/CellAddressExtensionsTests.cs:121-122 | the index of the offset of an index is that index |
| Indexer.PositionIndexAt | test/CellAddress.Tests.AddIn/CellAddressExtensionsTests.cs:121-122 | the offset of the index of an offset is that offset |
| Indexer.GetCell | test/CellAddress.Tests.AddIn/CellAddressExtensionsTests.cs:98-102 | succeeds exactly for 0 <= index < Count, else IndexOutOfRange; the result is a single cell of the block, on the block's sheet |
| Indexer.GetCellByDivision | test/CellAddress.Tests.AddIn/CellAddressExtensionsTests.cs:34-38 | ColumnFirst puts index i at row offset i / width and column offset i % width; RowFirst puts it at row offset i % height and column offset i / height |
| Indexer.NextCell | test/CellAddress.Tests.AddIn/CellAddressExtensionsTests.cs:110-114 | stepping from the top-left cell by the index's offset gives exactly GetCell's result, failures included |
| Indexer.IndexOfCell | test/CellAddress.Tests.AddIn/CellAddressExtensionsTests.cs:121-122 | a cell has an index exactly when the block contains its top-left corner, and that index is below Count |
| Indexer.IndexOfGetCell | test/CellAddress.Tests.AddIn/CellAddressExtensionsTests.cs:121-122 | the cell at every index has that index |
| Indexer.GetCellIndexOf | test/CellAddress.Tests.AddIn/CellAddressExtensionsTests.cs:121-122 | every cell of the block, on its sheet, is the cell at its index |
| Indexer.GetCellInjective | test/CellAddress.Tests.AddIn/CellAddressExtensionsTests.cs:131-132 | distinct indices give distinct cells |
| Indexer.GetCellOrder | test/CellAddress.Tests.AddIn/CellAddressExtensionsTests.cs:121-122 | a larger index gives a later cell, in row-then-column order for ColumnFirst and column-then-row order for RowFirst |
| Indexer.GetCells | test/CellAddress.Tests.AddIn/CellAddressExtensionsTests.cs:24 | the enumeration has Count cells, and its k-th entry is the cell at index k |
| Indexer.GetCellsEnumerates | test/CellAddress.Tests.AddIn/CellAddressExtensionsTests.cs:24-26 | the enumeration lists no cell twice and lists every cell of the block |
| AssertedBehaviour.ParseA1F5 | test/CellAddress.Tests.AddIn/CellAddressExtensionsTests.cs:33 | "A1:F5" is five rows by six columns at the origin, with no sheet |
| AssertedBehaviour.GetCellWithIndex | test/CellAddress.Tests.AddIn/CellAddressExtensionsTests.cs:32-39 | in A1:F5, index 1 across is $B$1 and index 2 down is $A$3 |
| AssertedBehaviour.OffsetOfC4 | test/CellAddress.Tests.AddIn/CellAddressExtensionsTests.cs:42-53 | C4 moved by (1), (0,1), (1,1) and (-1,-2) renders $C$5, $D$4, $D$5 and $A$3; C4 moved by (-10) is IndexOutOfRange |
| AssertedBehaviour.MaxOfA1A2 | test/CellAddress.Tests.AddIn/CellAddressExtensionsTests.cs:56-62 | A1.Max(A2) is A2 |
| AssertedBehaviour.GetRangeOfFourCells | test/CellAddress.Tests.AddIn/CellAddressExtensionsTests.cs:84-89 | GetRange of A1, B2, D5 and F3 renders $A$1:$F$5 |
| AssertedBehaviour.ParseSheet1A1B2 | test/CellAddress.Tests.AddIn/CellAddressExtensionsTests.cs:93 | "Sheet1!A1:B2" is two by two at the origin of Sheet1 |
| AssertedBehaviour.GetCellOnSheet1 | test/CellAddress.Tests.AddIn/CellAddressExtensionsTests.cs:92-103 | Sheet1!A1:B2 has Count 4, RowFirst 0 and ColumnFirst 0; index 1 down is $A$2 and index 1 across is $B$1 |
| AssertedBehaviour.NextCellOnSheet1 | test/CellAddress.Tests.AddIn/CellAddressExtensionsTests.cs:106-115 | on Sheet1!A1:B2, NextCell at index 1 is $A$2 down and $B$1 across |
| AssertedBehaviour.ParseSheet1A1F10 | test/CellAddress.Tests.AddIn/CellAddressExtensionsTests.cs:120 | "Sheet1!A1:F10" is ten rows by six columns at the origin of Sheet1 |
| AssertedBehaviour.GetCellForEveryIndex | test/CellAddress.Tests.AddIn/CellAddressExtensionsTests.cs:118-135 | Sheet1!A1:F10 has Count 60, and every index below 60 yields a cell in either direction |

## Left out

- The value-store calls are left out. These are `SetValue`, `GetValue`, `GetValues`, `SetFormula`, `GetFormula` and `ClearContents` (test file lines 13-29 and 66-81). They read and write the live workbook through the host, whose implementation is not visible. Only the enumeration `GetCells` that they fan out over is modelled.
- The `Console.WriteLine` output of the two loop tests (lines 123 and 133) is I/O. Only the absence of an exception for every index is kept, in `AssertedBehaviour.GetCellForEveryIndex`.
- The commented-out `ExcelReferenceExTests` class (lines 137-164) is dead code.
- The implicit conversion from a string to `CellAddress` (lines 75, 77 and 86) is modelled as `Parse`.
- The `CellAddress` implementation itself is not part of this model. Its behaviour is taken from what the tests assert.
- RangeArithmetic.GetRange: over addresses on different sheets it takes the first address's sheet. The tests give no evidence for mixed sheets, so this is a choice, not a promise.
- Integer widths are left out. C# `int` overflow and the host's sheet limits (1,048,576 rows, 16,384 columns) are not modelled: rows, columns and offsets are unbounded integers.
- Multi-letter column labels are proved correct in general by `ColumnCodec`, but the tests only exercise single letters (A to F). Their behaviour in the real implementation is not evidenced.
- Quoted sheet names (`'My Sheet'!A1`) and R1C1-style text are not modelled.
- `GetCells` is lazy in the source. Here it is a finite sequence of the same cells in the same order.
- Indexer.IndexOfCell: reads only the argument's top-left corner. Its sheet and extents are ignored, because the tests only ever pass a single cell from the same block.
- Indexer.NextCell: modelled as an alias of `GetCell`, stepping from the block's own top-left cell. No other anchor, such as a cursor, is evidenced.
