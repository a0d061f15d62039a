/** A1-style address text -> CellAddress.
      Address := [SheetName '!'] CellRef [':' CellRef]
      CellRef := ['$'] ColumnLabel ['$'] RowNumber      (RowNumber one-based)
    Corners may be given in either order; the value keeps the top-left
    corner and the extents. */
module AddressParser {
  import opened Outcomes
  import ColumnCodec
  import Decimal
  import opened CellAddresses

  /** Position of the first occurrence of c in s. */
  function FirstIndexOf(s: string, c: char): (r: Option<nat>)
    ensures r.None? <==> c !in s
    ensures r.Some? ==> r.value < |s| && s[r.value] == c && c !in s[..r.value]
  {
    if |s| == 0 then None
    else if s[0] == c then Some(0)
    else match FirstIndexOf(s[1..], c)
      case None => None
      case Some(k) =>
        assert s[..k + 1] == [s[0]] + s[1..][..k];
        Some(k + 1)
  }

  /** Position of the last occurrence of c in s. */
  function LastIndexOf(s: string, c: char): (r: Option<nat>)
    ensures r.None? <==> c !in s
    ensures r.Some? ==> r.value < |s| && s[r.value] == c && c !in s[r.value + 1..]
  {
    if |s| == 0 then None
    else if s[|s| - 1] == c then Some(|s| - 1)
    else
      var front := s[..|s| - 1];
      assert s == front + [s[|s| - 1]];
      match LastIndexOf(front, c)
      case None => None
      case Some(k) =>
        assert s[k + 1..] == front[k + 1..] + [s[|s| - 1]];
        Some(k)
  }

  /** Length of the longest prefix of s made of letters. */
  function LetterRun(s: string): (n: nat)
    ensures n <= |s|
    ensures forall k :: 0 <= k < n ==> ColumnCodec.IsLetter(s[k])
    ensures n < |s| ==> !ColumnCodec.IsLetter(s[n])
  {
    if |s| == 0 || !ColumnCodec.IsLetter(s[0]) then 0 else 1 + LetterRun(s[1..])
  }

  /** Drops one leading absolute marker '$', if there is one. */
  function SkipDollar(s: string): (t: string)
    ensures t == s || (|s| >= 1 && s[0] == '$' && t == s[1..])
  {
    if |s| >= 1 && s[0] == '$' then s[1..] else s
  }

  /** One corner: its zero-based (row, column). FormatError when the
      label or the row number is missing or malformed, or the row is 0. */
  function ParseCellRef(s: string): (r: Result<(nat, nat)>)
    ensures r.Err? ==> r.error == FormatError
  {
    var body := SkipDollar(s);
    var n := LetterRun(body);
    var column := ColumnCodec.DecodeColumn(body[..n]);
    var row := Decimal.ParseNat(SkipDollar(body[n..]));
    if column.Err? || row.Err? || row.value == 0 then Err(FormatError)
    else Ok((row.value - 1, column.value))
  }

  /** The optional absolute marker in front of a column label or row number. */
  function Marker(present: bool): string {
    if present then "$" else ""
  }

  /** s is one corner split into its parts: an optional '$', a column
      label of one or more letters (either case), an optional '$', and a
      row number of one or more digits whose value is at least 1 (leading
      zeros allowed). */
  ghost predicate CornerShape(s: string, columnMarker: bool, letters: string, rowMarker: bool, digits: string) {
    && s == Marker(columnMarker) + letters + Marker(rowMarker) + digits
    && ColumnCodec.IsLabel(letters)
    && |digits| >= 1 && Decimal.AllDigits(digits) && Decimal.Value(digits) >= 1
  }

  /** The corner grammar: ['$'] ColumnLabel ['$'] RowNumber. */
  ghost predicate IsCornerSyntax(s: string) {
    exists columnMarker, letters, rowMarker, digits :: CornerShape(s, columnMarker, letters, rowMarker, digits)
  }

  /** t is two corners joined by ':'. */
  ghost predicate PairShape(t: string, x: string, y: string) {
    t == x + ":" + y && IsCornerSyntax(x) && IsCornerSyntax(y)
  }

  /** The part after the sheet prefix: Corner [':' Corner]. */
  ghost predicate IsLocalSyntax(t: string) {
    IsCornerSyntax(t) || exists x, y :: PairShape(t, x, y)
  }

  /** text is an optional non-empty sheet name with its '!', then the
      local part. */
  ghost predicate AddressShape(text: string, sheet: Option<string>, local: string) {
    sheet != Some("") && text == SheetPrefix(sheet) + local && IsLocalSyntax(local)
  }

  /** The address grammar: [SheetName '!'] Corner [':' Corner]. */
  ghost predicate IsAddressSyntax(text: string) {
    exists sheet, local :: AddressShape(text, sheet, local)
  }

  /** The smallest block holding both corners, in whichever order given. */
  function Corners(sheet: Option<string>, p: (nat, nat), q: (nat, nat)): (a: CellAddress)
    ensures a.sheet == sheet
    ensures ContainsCell(a, p.0, p.1) && ContainsCell(a, q.0, q.1)
    ensures forall b: CellAddress :: ContainsCell(b, p.0, p.1) && ContainsCell(b, q.0, q.1) ==> Covers(b, a)
  {
    var top := if p.0 <= q.0 then p.0 else q.0;
    var bottom := if p.0 <= q.0 then q.0 else p.0;
    var left := if p.1 <= q.1 then p.1 else q.1;
    var right := if p.1 <= q.1 then q.1 else p.1;
    CellAddress(sheet, top, left, bottom - top + 1, right - left + 1)
  }

  /** The part after the sheet prefix. */
  function ParseLocal(sheet: Option<string>, text: string): (r: Result<CellAddress>)
    ensures r.Ok? ==> r.value.sheet == sheet
    ensures r.Err? ==> r.error == FormatError
  {
    match FirstIndexOf(text, ':')
    case None =>
      var p :- ParseCellRef(text);
      Ok(Cell(sheet, p.0, p.1))
    case Some(k) =>
      var p :- ParseCellRef(text[..k]);
      var q :- ParseCellRef(text[k + 1..]);
      Ok(Corners(sheet, p, q))
  }

  /** CellAddress.Parse: the sheet name is everything before the last '!';
      without a '!' the address has no sheet. */
  function Parse(text: string): (r: Result<CellAddress>)
    ensures r.Ok? ==> (r.value.sheet.Some? <==> '!' in text)
    ensures r.Ok? && r.value.sheet.Some? ==> |r.value.sheet.value| >= 1 && r.value.sheet.value < text
    ensures r.Err? ==> r.error == FormatError
  {
    match LastIndexOf(text, '!')
    case None => ParseLocal(None, text)
    case Some(k) =>
      if k == 0 then Err(FormatError) else ParseLocal(Some(text[..k]), text[k + 1..])
  }

  /** "Name!" for a sheet, nothing without one. */
  function SheetPrefix(sheet: Option<string>): string {
    match sheet
    case None => ""
    case Some(name) => name + "!"
  }

  /** LocalAddress prefixed with the sheet name, when there is one. */
  function FullAddress(a: CellAddress): string {
    SheetPrefix(a.sheet) + LocalAddress(a)
  }

  lemma LetterRunOfLabel(letters: string, rest: string)
    requires ColumnCodec.AllLetters(letters)
    requires |rest| >= 1 && !ColumnCodec.IsLetter(rest[0])
    ensures LetterRun(letters + rest) == |letters|
  {
    var s := letters + rest;
    assert forall k :: 0 <= k < |letters| ==> s[k] == letters[k];
    assert s[|letters|] == rest[0];
  }

  lemma FirstIndexOfJoin(x: string, c: char, y: string)
    requires c !in x
    ensures FirstIndexOf(x + [c] + y, c) == Some(|x|)
  {
    var s := x + [c] + y;
    assert s[|x|] == c && s[..|x|] == x;
  }

  lemma LastIndexOfJoin(x: string, c: char, y: string)
    requires c !in y
    ensures LastIndexOf(x + [c] + y, c) == Some(|x|)
  {
    var s := x + [c] + y;
    assert s[|x|] == c && s[|x| + 1..] == y;
  }

  /** A corner parses to its row and column whether or not either
      absolute marker is written. */
  lemma ParseCornerText(row: nat, column: nat, columnMarker: bool, rowMarker: bool)
    ensures ParseCellRef(CornerText(row, column, columnMarker, rowMarker)) == Ok((row, column))
  {
    var letters := ColumnCodec.EncodeColumn(column);
    var digits := Decimal.Show(row + 1);
    var tail := (if rowMarker then "$" else "") + digits;
    var s := CornerText(row, column, columnMarker, rowMarker);
    assert SkipDollar(s) == letters + tail by {
      if columnMarker {
        assert s == "$" + (letters + tail);
      } else {
        assert s == letters + tail && s[0] == letters[0];
      }
    }
    assert |tail| >= 1 && !ColumnCodec.IsLetter(tail[0]) && SkipDollar(tail) == digits by {
      if rowMarker {
        assert tail == "$" + digits;
      } else {
        assert tail == digits;
      }
    }
    Decimal.ParseShow(row + 1);
    ColumnCodec.DecodeEncode(column);
    ParseCellRefParts(s, letters, tail, row, column);
  }

  /** A corner whose column label and row number have been located. */
  lemma ParseCellRefParts(s: string, letters: string, tail: string, row: nat, column: nat)
    requires SkipDollar(s) == letters + tail
    requires ColumnCodec.AllLetters(letters)
    requires |tail| >= 1 && !ColumnCodec.IsLetter(tail[0])
    requires ColumnCodec.DecodeColumn(letters) == Ok(column)
    requires Decimal.ParseNat(SkipDollar(tail)) == Ok(row + 1)
    ensures ParseCellRef(s) == Ok((row, column))
  {
    var body := letters + tail;
    LetterRunOfLabel(letters, tail);
    assert body[..|letters|] == letters && body[|letters|..] == tail;
  }

  /** A rendered corner parses back to its row and column. */
  lemma ParseCellText(row: nat, column: nat)
    ensures ParseCellRef(CellText(row, column)) == Ok((row, column))
  {
    ParseCornerText(row, column, true, true);
  }

  /** Both corners parsed: the block they span. */
  lemma ParseLocalPair(sheet: Option<string>, x: string, y: string)
    requires ':' !in x
    ensures ParseLocal(sheet, x + ":" + y) ==
      if ParseCellRef(x).Err? || ParseCellRef(y).Err? then Err(FormatError)
      else Ok(Corners(sheet, ParseCellRef(x).value, ParseCellRef(y).value))
  {
    var s := x + ":" + y;
    FirstIndexOfJoin(x, ':', y);
    assert s[..|x|] == x && s[|x| + 1..] == y;
  }

  /** One corner parsed: the single cell it names. */
  lemma ParseLocalSingle(sheet: Option<string>, x: string)
    requires ':' !in x
    ensures ParseLocal(sheet, x) ==
      if ParseCellRef(x).Err? then Err(FormatError)
      else Ok(Cell(sheet, ParseCellRef(x).value.0, ParseCellRef(x).value.1))
  {
  }

  lemma LocalAddressParts(a: CellAddress)
    ensures LocalAddress(a) ==
      if IsSingleCell(a) then CellText(a.rowFirst, a.columnFirst)
      else CellText(a.rowFirst, a.columnFirst) + ":" + CellText(RowLast(a), ColumnLast(a))
  {
  }

  /** The canonical rendering parses back to the same block, without sheet. */
  lemma ParseLocalAddress(sheet: Option<string>, a: CellAddress)
    ensures ParseLocal(sheet, LocalAddress(a)) == Ok(a.(sheet := sheet))
  {
    var first := CellText(a.rowFirst, a.columnFirst);
    ParseCellText(a.rowFirst, a.columnFirst);
    LocalAddressParts(a);
    if IsSingleCell(a) {
      ParseLocalSingle(sheet, first);
    } else {
      var last := CellText(RowLast(a), ColumnLast(a));
      ParseCellText(RowLast(a), ColumnLast(a));
      ParseLocalPair(sheet, first, last);
      CornersOfBlock(sheet, a);
    }
  }

  lemma CornersOfBlock(sheet: Option<string>, a: CellAddress)
    ensures Corners(sheet, (a.rowFirst, a.columnFirst), (RowLast(a), ColumnLast(a))) == a.(sheet := sheet)
  {
  }

  lemma ParseWithSheet(name: string, text: string)
    requires |name| >= 1 && '!' !in text
    ensures Parse(name + "!" + text) == ParseLocal(Some(name), text)
  {
    var s := name + "!" + text;
    LastIndexOfJoin(name, '!', text);
    assert s[..|name|] == name && s[|name| + 1..] == text;
  }

  lemma ParseSheetPrefix(sheet: Option<string>, text: string)
    requires sheet != Some("") && '!' !in text
    ensures Parse(SheetPrefix(sheet) + text) == ParseLocal(sheet, text)
  {
    match sheet
    case None =>
      assert SheetPrefix(sheet) + text == text;
      ParseWithoutSheet(text);
    case Some(name) =>
      ParseWithSheet(name, text);
  }

  lemma NotInJoin(x: string, y: string, c: char)
    requires c !in x && c !in y
    ensures c !in x + y
  {
  }

  /** Parse inverts the full rendering: every address with a non-empty
      sheet name, or none, is recovered from its text. */
  lemma ParseFullAddress(a: CellAddress)
    requires a.sheet != Some("")
    ensures Parse(FullAddress(a)) == Ok(a)
  {
    ParseLocalAddress(a.sheet, a);
    ParseSheetPrefix(a.sheet, LocalAddress(a));
  }

  /** A single corner, after an optional sheet prefix, is that one cell. */
  lemma ParseCorner(sheet: Option<string>, x: string, p: (nat, nat))
    requires sheet != Some("")
    requires IsRenderText(x) && ParseCellRef(x) == Ok(p)
    ensures Parse(SheetPrefix(sheet) + x) == Ok(Cell(sheet, p.0, p.1))
  {
    RenderTextHasNoSeparator(x);
    ParseSheetPrefix(sheet, x);
    ParseLocalSingle(sheet, x);
  }

  /** A single corner written without markers parses to one cell, whose
      rendering is the same corner with both absolute markers. */
  lemma ParseThenRender(row: nat, column: nat)
    ensures Parse(CornerText(row, column, false, false)) == Ok(Cell(None, row, column))
    ensures Count(Cell(None, row, column)) == 1
    ensures LocalAddress(Cell(None, row, column)) == CornerText(row, column, true, true)
  {
    var x := CornerText(row, column, false, false);
    ParseCornerText(row, column, false, false);
    ParseCorner(None, x, (row, column));
    assert SheetPrefix(None) + x == x;
  }

  /** Two corners, after an optional sheet prefix, are the smallest block
      holding both. */
  lemma ParseCornerPair(sheet: Option<string>, x: string, y: string, p: (nat, nat), q: (nat, nat))
    requires sheet != Some("")
    requires IsRenderText(x) && ParseCellRef(x) == Ok(p)
    requires IsRenderText(y) && ParseCellRef(y) == Ok(q)
    ensures Parse(SheetPrefix(sheet) + (x + ":" + y)) == Ok(Corners(sheet, p, q))
  {
    RenderTextHasNoSeparator(x);
    RenderTextHasNoSeparator(y);
    NotInJoin(x, ":", '!');
    NotInJoin(x + ":", y, '!');
    ParseSheetPrefix(sheet, x + ":" + y);
    ParseLocalPair(sheet, x, y);
  }

  lemma ParseWithoutSheet(text: string)
    requires '!' !in text
    ensures Parse(text) == ParseLocal(None, text)
  {
  }

  lemma CornersSymmetric(sheet: Option<string>, p: (nat, nat), q: (nat, nat))
    ensures Corners(sheet, p, q) == Corners(sheet, q, p)
  {
  }



  /** Dropping an optional marker in front of text that does not itself
      start with '$'. */
  lemma SkipMarker(present: bool, t: string)
    requires |t| >= 1 && t[0] != '$'
    ensures SkipDollar(Marker(present) + t) == t
  {
    if present {
      assert Marker(present) + t == "$" + t;
    } else {
      assert Marker(present) + t == t;
    }
  }

  /** A marker or a digit: not a letter. */
  lemma MarkedDigitsStart(present: bool, digits: string)
    requires |digits| >= 1 && Decimal.AllDigits(digits)
    ensures |Marker(present) + digits| >= 1 && !ColumnCodec.IsLetter((Marker(present) + digits)[0])
  {
    if present {
      assert (Marker(present) + digits)[0] == '$';
    } else {
      assert (Marker(present) + digits)[0] == digits[0];
    }
  }

  /** A corner in the grammar parses to (row number - 1, decoded label). */
  lemma ParseCornerShape(s: string, columnMarker: bool, letters: string, rowMarker: bool, digits: string)
    requires CornerShape(s, columnMarker, letters, rowMarker, digits)
    ensures ParseCellRef(s).Ok? && ParseCellRef(s).value.0 + 1 == Decimal.Value(digits)
    ensures ColumnCodec.DecodeColumn(letters) == Ok(ParseCellRef(s).value.1)
  {
    var tail := Marker(rowMarker) + digits;
    var row: nat := Decimal.Value(digits) - 1;
    var column := ColumnCodec.DecodeColumn(letters).value;
    assert s == Marker(columnMarker) + (letters + tail);
    SkipMarker(columnMarker, letters + tail);
    SkipMarker(rowMarker, digits);
    MarkedDigitsStart(rowMarker, digits);
    ParseCellRefParts(s, letters, tail, row, column);
  }

  /** Text is its optional leading marker followed by the rest. */
  lemma MarkerSplit(s: string)
    ensures s == Marker(|s| >= 1 && s[0] == '$') + SkipDollar(s)
  {
    if |s| >= 1 && s[0] == '$' {
      assert s == "$" + s[1..];
    }
  }

  lemma SplitJoin(s: string, n: nat)
    requires n <= |s|
    ensures s == s[..n] + s[n..]
  {
  }

  lemma JoinFour(s: string, a: string, body: string, b: string, rest: string, c: string, d: string)
    requires s == a + body && body == b + rest && rest == c + d
    ensures s == a + b + c + d
  {
  }

  /** Every corner ParseCellRef accepts is in the grammar. */
  lemma CornerShapeOfParse(s: string)
    requires ParseCellRef(s).Ok?
    ensures IsCornerSyntax(s)
  {
    var columnMarker := |s| >= 1 && s[0] == '$';
    var body := SkipDollar(s);
    var n := LetterRun(body);
    var letters, rest := body[..n], body[n..];
    var rowMarker := |rest| >= 1 && rest[0] == '$';
    var digits := SkipDollar(rest);
    MarkerSplit(s);
    MarkerSplit(rest);
    SplitJoin(body, n);
    JoinFour(s, Marker(columnMarker), body, letters, rest, Marker(rowMarker), digits);
    assert CornerShape(s, columnMarker, letters, rowMarker, digits);
  }

  /** ParseCellRef accepts exactly the corner grammar; ParseCornerShape
      gives the value. */
  lemma ParseCellRefSyntax(s: string)
    ensures ParseCellRef(s).Ok? <==> IsCornerSyntax(s)
  {
    if IsCornerSyntax(s) {
      var columnMarker, letters, rowMarker, digits :| CornerShape(s, columnMarker, letters, rowMarker, digits);
      ParseCornerShape(s, columnMarker, letters, rowMarker, digits);
    }
    if ParseCellRef(s).Ok? {
      CornerShapeOfParse(s);
    }
  }

  /** Text made only of the characters a corner uses. */
  predicate CornerChars(s: string) {
    forall k :: 0 <= k < |s| ==> s[k] == '$' || ColumnCodec.IsLetter(s[k]) || Decimal.IsDigit(s[k])
  }

  lemma CornerCharsJoin(s: string, t: string)
    requires CornerChars(s) && CornerChars(t)
    ensures CornerChars(s + t)
  {
    assert forall k :: |s| <= k < |s + t| ==> (s + t)[k] == t[k - |s|];
  }

  /** A corner holds neither separator: only '$', letters and digits. */
  lemma CornerHasNoSeparator(s: string)
    requires IsCornerSyntax(s)
    ensures ':' !in s && '!' !in s
  {
    var columnMarker, letters, rowMarker, digits :| CornerShape(s, columnMarker, letters, rowMarker, digits);
    CornerCharsJoin(Marker(columnMarker), letters);
    CornerCharsJoin(Marker(columnMarker) + letters, Marker(rowMarker));
    CornerCharsJoin(Marker(columnMarker) + letters + Marker(rowMarker), digits);
    assert forall k :: 0 <= k < |s| ==> s[k] != ':' && s[k] != '!';
  }

  /** The local part holds no '!'. */
  lemma LocalHasNoBang(t: string)
    requires IsLocalSyntax(t)
    ensures '!' !in t
  {
    if IsCornerSyntax(t) {
      CornerHasNoSeparator(t);
    } else {
      var x, y :| PairShape(t, x, y);
      CornerHasNoSeparator(x);
      CornerHasNoSeparator(y);
      NotInJoin(x, ":", '!');
      NotInJoin(x + ":", y, '!');
    }
  }

  /** Without a ':' the text is not a pair of corners. */
  lemma NoPairWithoutColon(t: string)
    requires ':' !in t
    ensures !exists x, y :: PairShape(t, x, y)
  {
  }

  /** A pair of corners is not a single corner. */
  lemma PairIsNotCorner(x: string, y: string)
    ensures !IsCornerSyntax(x + ":" + y)
  {
    var t := x + ":" + y;
    assert t[|x|] == ':';
    if IsCornerSyntax(t) {
      CornerHasNoSeparator(t);
    }
  }

  /** Split at its first ':', a pair of corners has only one reading. */
  lemma PairUnique(x: string, y: string)
    requires ':' !in x
    ensures forall x', y' :: PairShape(x + ":" + y, x', y') ==> x' == x && y' == y
  {
    forall x', y' | PairShape(x + ":" + y, x', y')
      ensures x' == x && y' == y
    {
      CornerHasNoSeparator(x');
      FirstIndexOfJoin(x', ':', y');
      FirstIndexOfJoin(x, ':', y);
      var t := x + ":" + y;
      assert x' == t[..|x|] == x;
      assert y' == t[|x| + 1..] == y;
    }
  }

  lemma ParseLocalSyntaxSingle(sheet: Option<string>, t: string)
    requires ':' !in t
    ensures ParseLocal(sheet, t).Ok? <==> IsLocalSyntax(t)
  {
    ParseLocalSingle(sheet, t);
    ParseCellRefSyntax(t);
    NoPairWithoutColon(t);
  }

  lemma ParseLocalSyntaxPair(sheet: Option<string>, x: string, y: string)
    requires ':' !in x
    ensures ParseLocal(sheet, x + ":" + y).Ok? <==> IsLocalSyntax(x + ":" + y)
  {
    var t := x + ":" + y;
    ParseLocalPair(sheet, x, y);
    ParseCellRefSyntax(x);
    ParseCellRefSyntax(y);
    PairUnique(x, y);
    PairIsNotCorner(x, y);
    if ParseCellRef(x).Ok? && ParseCellRef(y).Ok? {
      assert PairShape(t, x, y);
    }
  }

  /** ParseLocal accepts exactly Corner [':' Corner]. */
  lemma ParseLocalSyntax(sheet: Option<string>, t: string)
    ensures ParseLocal(sheet, t).Ok? <==> IsLocalSyntax(t)
  {
    match FirstIndexOf(t, ':')
    case None =>
      ParseLocalSyntaxSingle(sheet, t);
    case Some(k) =>
      var x, y := t[..k], t[k + 1..];
      assert t == x + ":" + y;
      ParseLocalSyntaxPair(sheet, x, y);
  }

  /** Text in the address grammar parses. */
  lemma ParseOfSyntax(text: string, sheet: Option<string>, local: string)
    requires AddressShape(text, sheet, local)
    ensures Parse(text) == ParseLocal(sheet, local) && Parse(text).Ok?
  {
    LocalHasNoBang(local);
    ParseSheetPrefix(sheet, local);
    ParseLocalSyntax(sheet, local);
  }

  /** Text split at a '!': the sheet prefix, then the rest. */
  lemma SheetSplit(text: string, k: nat)
    requires k < |text| && text[k] == '!'
    ensures text == SheetPrefix(Some(text[..k])) + text[k + 1..]
  {
    assert text == text[..k] + [text[k]] + text[k + 1..];
  }

  lemma SyntaxOfLocal(text: string, sheet: Option<string>, local: string)
    requires sheet != Some("") && text == SheetPrefix(sheet) + local
    requires ParseLocal(sheet, local).Ok?
    ensures IsAddressSyntax(text)
  {
    ParseLocalSyntax(sheet, local);
    assert AddressShape(text, sheet, local);
  }

  /** Text that parses is in the address grammar. */
  lemma SyntaxOfParse(text: string)
    requires Parse(text).Ok?
    ensures IsAddressSyntax(text)
  {
    match LastIndexOf(text, '!')
    case None =>
      assert text == SheetPrefix(None) + text;
      SyntaxOfLocal(text, None, text);
    case Some(k) =>
      SheetSplit(text, k);
      SyntaxOfLocal(text, Some(text[..k]), text[k + 1..]);
  }

  /** Parse accepts exactly [SheetName '!'] Corner [':' Corner], with a
      non-empty sheet name; the name is everything before the last '!'. */
  lemma ParseSyntax(text: string)
    ensures Parse(text).Ok? <==> IsAddressSyntax(text)
  {
    if IsAddressSyntax(text) {
      var sheet, local :| AddressShape(text, sheet, local);
      ParseOfSyntax(text, sheet, local);
    }
    if Parse(text).Ok? {
      SyntaxOfParse(text);
    }
  }

  /** The order of the two corners does not matter, with or without a
      sheet prefix. */
  lemma CornerOrderIrrelevant(sheet: Option<string>, x: string, y: string)
    requires sheet != Some("")
    requires ':' !in x && ':' !in y && '!' !in x && '!' !in y
    ensures Parse(SheetPrefix(sheet) + (x + ":" + y)) == Parse(SheetPrefix(sheet) + (y + ":" + x))
  {
    NotInJoin(x, ":", '!');
    NotInJoin(x + ":", y, '!');
    NotInJoin(y, ":", '!');
    NotInJoin(y + ":", x, '!');
    ParseSheetPrefix(sheet, x + ":" + y);
    ParseSheetPrefix(sheet, y + ":" + x);
    ParseLocalPair(sheet, x, y);
    ParseLocalPair(sheet, y, x);
    if ParseCellRef(x).Ok? && ParseCellRef(y).Ok? {
      CornersSymmetric(sheet, ParseCellRef(x).value, ParseCellRef(y).value);
    }
  }
}
