/** A1 ranges: column letters, sheet quoting, parsing and row-bounded rendering. */
module A1Notation {
  import opened Wrappers
  import opened Text

  // -- column letters ----------------------------------------------------------------

  predicate IsUpper(c: char) {
    'A' <= c <= 'Z'
  }

  predicate IsLetter(c: char) {
    IsUpper(c) || 'a' <= c <= 'z'
  }

  /** `str.upper` on ASCII. */
  function UpperCase(s: string): (u: string)
    ensures |u| == |s|
    ensures (forall c | c in s :: IsLetter(c)) ==> forall c | c in u :: IsUpper(c)
  {
    if s == "" then ""
    else
      assert s[0] in s;
      var c := s[|s| - 1];
      assert c in s && forall d | d in s[..|s| - 1] :: d in s;
      UpperCase(s[..|s| - 1]) + [if 'a' <= c <= 'z' then (c as int - 32) as char else c]
  }

  /** Character by character: a lower-case letter becomes the capital in its place. */
  lemma {:induction false} UpperCaseIs(s: string, i: nat)
    requires i < |s|
    ensures var lower, upper := "abcdefghijklmnopqrstuvwxyz", "ABCDEFGHIJKLMNOPQRSTUVWXYZ";
            && (forall k | 0 <= k < 26 :: s[i] == lower[k] ==> UpperCase(s)[i] == upper[k])
            && (s[i] !in lower ==> UpperCase(s)[i] == s[i])
  {
    var init := s[..|s| - 1];
    if i < |init| {
      UpperCaseIs(init, i);
    } else {
      Alphabet(s[i]);
    }
  }

  lemma Alphabet(c: char)
    ensures var lower, upper := "abcdefghijklmnopqrstuvwxyz", "ABCDEFGHIJKLMNOPQRSTUVWXYZ";
            && (forall k | 0 <= k < 26 :: lower[k] as int == 97 + k && upper[k] as int == 65 + k)
            && ('a' <= c <= 'z' <==> c in lower)
  {
    var lower := "abcdefghijklmnopqrstuvwxyz";
    LowerPlaces();
    if 'a' <= c <= 'z' {
      assert lower[c as int - 97] == c;
    }
  }

  lemma LowerPlaces()
    ensures forall k | 0 <= k < 26 :: "abcdefghijklmnopqrstuvwxyz"[k] as int == 97 + k
  {
  }

  predicate IsColumn(s: string) {
    forall c | c in s :: IsUpper(c)
  }

  /** Bijective base 26: the letters A..Z are the digits 1..26. */
  function ColumnNumber(s: string): (n: nat)
    requires IsColumn(s)
    ensures n == 0 <==> s == ""
  {
    if s == "" then 0
    else
      var last := s[|s| - 1];
      assert last in s && IsUpper(last);
      ColumnNumber(s[..|s| - 1]) * 26 + (last as int - 64)
  }

  function ColumnText(n: nat): (s: string)
    ensures IsColumn(s)
    ensures s == "" <==> n == 0
  {
    if n == 0 then "" else ColumnText((n - 1) / 26) + [(65 + (n - 1) % 26) as char]
  }

  lemma {:induction false} NumberOfText(n: nat)
    ensures ColumnNumber(ColumnText(n)) == n
  {
    if n > 0 {
      NumberOfText((n - 1) / 26);
      var s := ColumnText(n);
      assert s[..|s| - 1] == ColumnText((n - 1) / 26);
    }
  }

  // The last letter is the remainder, the others the quotient.
  lemma LastLetter(s: string)
    requires IsColumn(s) && s != ""
    ensures var n := ColumnNumber(s);
            && IsColumn(s[..|s| - 1]) && (n - 1) / 26 == ColumnNumber(s[..|s| - 1])
            && 65 + (n - 1) % 26 == s[|s| - 1] as int
  {
    assert s[|s| - 1] in s;
    assert forall c | c in s[..|s| - 1] :: c in s;
  }

  lemma {:induction false} TextOfNumber(s: string)
    requires IsColumn(s)
    ensures ColumnText(ColumnNumber(s)) == s
  {
    if s != "" {
      LastLetter(s);
      hide ColumnNumber, IsColumn;
      TextOfNumber(s[..|s| - 1]);
      assert s == s[..|s| - 1] + [s[|s| - 1]];
    }
  }

  // A column that stands before another in a sheet: shorter, or as long and earlier in the alphabet.
  predicate Before(s: string, t: string) {
    || |s| < |t|
    || (|s| == |t| > 0
        && (Before(s[..|s| - 1], t[..|t| - 1])
            || (s[..|s| - 1] == t[..|t| - 1] && s[|s| - 1] < t[|t| - 1])))
  }

  /** The numbering follows the order in which a sheet names its columns; as every number from one
      on is some column's, the order fixes it. */
  lemma {:induction false} ColumnsInOrder(s: string, t: string)
    requires IsColumn(s) && IsColumn(t) && Before(s, t)
    ensures ColumnNumber(s) < ColumnNumber(t)
    decreases |t|
  {
    LastLetter(t);
    if s != "" {
      LastLetter(s);
      var s', t' := s[..|s| - 1], t[..|t| - 1];
      if Before(s', t') {
        ColumnsInOrder(s', t');
      }
    }
  }

  // How many columns have at most `k` letters.
  function Columns(k: nat): nat {
    if k == 0 then 0 else 26 * Columns(k - 1) + 26
  }

  lemma {:induction false} LengthOfText(n: nat, k: nat)
    ensures |ColumnText(n)| <= k <==> n <= Columns(k)
  {
    if n > 0 && k > 0 {
      LengthOfText((n - 1) / 26, k - 1);
    }
  }

  datatype RangeError = BelowZero | BadLetters | EmptyRange | CannotParse | RowsStartAtOne

  /** The loop of `col_to_index`. */
  method ColToIndex(letters: string) returns (r: Result<int, RangeError>)
    ensures IsColumn(UpperCase(letters)) ==> r == Ok(ColumnNumber(UpperCase(letters)) - 1)
    ensures !IsColumn(UpperCase(letters)) ==> r == Err(BadLetters)
  {
    var upper := UpperCase(letters);
    var n := 0;
    for i := 0 to |upper|
      invariant IsColumn(upper[..i]) && n == ColumnNumber(upper[..i])
    {
      if !('A' <= upper[i] <= 'Z') {
        assert upper[i] in upper;
        return Err(BadLetters);
      }
      assert upper[..i + 1][..i] == upper[..i];
      n := n * 26 + (upper[i] as int - 64);
    }
    assert upper[..|upper|] == upper;
    r := Ok(n - 1);
  }

  /** The loop of `index_to_col`. */
  method IndexToCol(index: int) returns (r: Result<string, RangeError>)
    ensures index < 0 ==> r == Err(BelowZero)
    ensures index >= 0 ==> r == Ok(ColumnText(index + 1))
  {
    if index < 0 {
      return Err(BelowZero);
    }
    var text, n := "", index + 1;
    assert ColumnText(n) + "" == ColumnText(n);
    while n > 0
      invariant n >= 0 && ColumnText(n) + text == ColumnText(index + 1)
    {
      var rem := (n - 1) % 26;
      var digit := (65 + rem) as char;
      assert ColumnText((n - 1) / 26) + ([digit] + text) == ColumnText(n) + text;
      n, text := (n - 1) / 26, [digit] + text;
    }
    assert "" + text == text;
    r := Ok(text);
  }

  /** Letters and indexes are in one-to-one correspondence, both ways, and an index is below 18278
      exactly when its column has at most three letters. */
  lemma ColumnsAndIndexes(index: nat, s: string)
    requires IsColumn(s) && s != ""
    ensures ColumnNumber(ColumnText(index + 1)) - 1 == index
    ensures ColumnNumber(s) >= 1 && ColumnText((ColumnNumber(s) - 1) + 1) == s
    ensures |ColumnText(index + 1)| <= 3 <==> index < 18278
  {
    NumberOfText(index + 1);
    TextOfNumber(s);
    LengthOfText(index + 1, 3);
    assert Columns(3) == 26 * (26 * (26 * 0 + 26) + 26) + 26;
  }

  // -- sheet titles ------------------------------------------------------------------

  /** `name.replace("'", "''")`. */
  function DoubleQuotes(s: string): string {
    if s == "" then "" else (if s[0] == '\'' then "''" else [s[0]]) + DoubleQuotes(s[1..])
  }

  /** `s.replace("''", "'")`, left to right. */
  function HalveQuotes(s: string): string
    decreases |s|
  {
    if s == "" then ""
    else if |s| >= 2 && s[0] == '\'' && s[1] == '\'' then "'" + HalveQuotes(s[2..])
    else [s[0]] + HalveQuotes(s[1..])
  }

  lemma {:induction false} HalveDoubled(s: string)
    ensures HalveQuotes(DoubleQuotes(s)) == s
  {
    if s != "" {
      HalveDoubled(s[1..]);
      var d := DoubleQuotes(s);
      if s[0] == '\'' {
        assert d[2..] == DoubleQuotes(s[1..]);
      } else {
        assert d[1..] == DoubleQuotes(s[1..]);
      }
      assert s == [s[0]] + s[1..];
    }
  }

  function QuoteSheet(name: string): string {
    "'" + DoubleQuotes(name) + "'"
  }

  // -- parsing -----------------------------------------------------------------------

  /** A parsed range. Rows count from 1, columns from 0; None is an open end. */
  datatype A1 = A1(sheet: Option<string>, cells: Option<string>, startRow: Option<nat>, startCol: Option<nat>,
                   endRow: Option<nat>, endCol: Option<nat>)

  /** The groups of the cell pattern; an empty group did not take part. */
  datatype Cell = Cell(letters: string, digits: string)

  function LetterRun(s: string): (n: nat)
    ensures n <= |s| && forall c | c in s[..n] :: IsLetter(c)
    ensures n < |s| ==> !IsLetter(s[n])
  {
    if s == "" || !IsLetter(s[0]) then 0 else 1 + LetterRun(s[1..])
  }

  function SkipDollar(s: string): string {
    if s != "" && s[0] == '$' then s[1..] else s
  }

  /** An optional `$`, up to three letters, an optional `$`, digits, and nothing else. */
  function ReadCell(p: string): (cell: Option<Cell>)
    ensures cell.Some? ==> |cell.value.letters| <= 3 && (forall c | c in cell.value.letters :: IsLetter(c))
                           && AllDigits(cell.value.digits)
  {
    var s := SkipDollar(p);
    var n := LetterRun(s);
    var digits := SkipDollar(s[n..]);
    if n <= 3 && AllDigits(digits) then Some(Cell(s[..n], digits)) else None
  }

  /** The cell pattern; its end also matches in front of a final newline. */
  function ParseCell(text: string): (cell: Option<Cell>)
    ensures cell.Some? ==> |cell.value.letters| <= 3 && (forall c | c in cell.value.letters :: IsLetter(c))
                           && AllDigits(cell.value.digits)
  {
    ReadCell(if text != "" && text[|text| - 1] == '\n' then text[..|text| - 1] else text)
  }

  // The text is what the pattern's parts make up, each sign and the newline there or not.
  predicate Matches(text: string, sign: string, letters: string, fixed: string, digits: string, end: string) {
    && (sign == "" || sign == "$") && (fixed == "" || fixed == "$") && (end == "" || end == "\n")
    && |letters| <= 3 && (forall c | c in letters :: 'A' <= c <= 'Z' || 'a' <= c <= 'z')
    && (forall c | c in digits :: '0' <= c <= '9')
    && text == sign + (letters + (fixed + digits)) + end
  }

  lemma SkipSign(sign: string, rest: string)
    requires sign == "$" || (sign == "" && (rest == "" || rest[0] != '$'))
    ensures SkipDollar(sign + rest) == rest
  {
    assert sign == "" ==> sign + rest == rest;
  }

  lemma ReadParts(sign: string, letters: string, fixed: string, digits: string)
    requires sign == "$" || (sign == "" && (letters != "" || fixed == ""))
    requires fixed == "" || fixed == "$"
    requires |letters| <= 3 && (forall c | c in letters :: IsLetter(c)) && AllDigits(digits)
    ensures ReadCell(sign + (letters + (fixed + digits))) == Some(Cell(letters, digits))
  {
    var rest := fixed + digits;
    var s := letters + rest;
    assert digits != "" ==> digits[0] in digits;
    assert letters != "" ==> letters[0] in letters && s[0] == letters[0];
    assert letters == "" ==> s == rest;
    assert fixed == "" ==> rest == digits;
    SkipSign(fixed, digits);
    SkipSign(sign, s);
    LetterRunIs(letters, rest);
    assert s[..|letters|] == letters && s[|letters|..] == rest;
    hide SkipDollar, LetterRun;
  }

  lemma NewlineApart(body: string, end: string)
    requires end == "\n" || (end == "" && (body == "" || body[|body| - 1] != '\n'))
    ensures ParseCell(body + end) == ReadCell(body)
  {
    var text := body + end;
    if end == "" {
      assert text == body;
    } else {
      assert text[..|text| - 1] == body;
    }
  }

  lemma ParseCellReads(text: string, sign: string, letters: string, fixed: string, digits: string, end: string)
    requires Matches(text, sign, letters, fixed, digits, end)
    ensures ParseCell(text) == Some(Cell(letters, digits))
  {
    hide ReadCell, ParseCell;
    var rest := fixed + digits;
    var body := sign + (letters + rest);
    assert body != "" ==> body[|body| - 1] != '\n' by {
      LastOf(sign, letters + rest);
      LastOf(letters, rest);
      LastOf(fixed, digits);
    }
    NewlineApart(body, end);
    if sign == "" && letters == "" && fixed == "$" {
      ReadParts("$", "", "", digits);
      assert body == "$" + ("" + ("" + digits));
    } else {
      ReadParts(sign, letters, fixed, digits);
    }
  }

  lemma LastOf(a: string, b: string)
    ensures a + b != "" ==> (a + b)[|a + b| - 1] in if b == "" then a else b
  {
  }

  lemma SignApart(s: string) returns (sign: string)
    ensures sign == "" || sign == "$"
    ensures s == sign + SkipDollar(s)
  {
    sign := if s != "" && s[0] == '$' then "$" else "";
    assert s == sign + SkipDollar(s);
  }

  lemma PartsMatch(s: string, sign: string, letters: string, fixed: string, digits: string)
    requires s == letters + (fixed + digits)
    requires (sign == "" || sign == "$") && (fixed == "" || fixed == "$")
    requires |letters| <= 3 && (forall c | c in letters :: IsLetter(c)) && AllDigits(digits)
    ensures Matches(sign + s, sign, letters, fixed, digits, "")
  {
    assert sign + s + "" == sign + s;
  }

  // Where the letters and the digits stand.
  lemma ReadCellAt(q: string) returns (tail: string)
    requires ReadCell(q).Some?
    ensures SkipDollar(q) == ReadCell(q).value.letters + tail && SkipDollar(tail) == ReadCell(q).value.digits
  {
    var s := SkipDollar(q);
    tail := s[LetterRun(s)..];
    hide SkipDollar, LetterRun;
  }

  lemma PartsOfRead(q: string) returns (sign: string, fixed: string)
    requires ReadCell(q).Some?
    ensures Matches(q, sign, ReadCell(q).value.letters, fixed, ReadCell(q).value.digits, "")
  {
    hide SkipDollar, LetterRun, ReadCell, Matches, AllDigits, IsLetter;
    var tail := ReadCellAt(q);
    sign := SignApart(q);
    fixed := SignApart(tail);
    PartsMatch(SkipDollar(q), sign, ReadCell(q).value.letters, fixed, ReadCell(q).value.digits);
  }

  lemma ParseCellMatches(text: string) returns (sign: string, fixed: string, end: string)
    requires ParseCell(text).Some?
    ensures Matches(text, sign, ParseCell(text).value.letters, fixed, ParseCell(text).value.digits, end)
  {
    hide ReadCell;
    if text != "" && text[|text| - 1] == '\n' {
      end := "\n";
      sign, fixed := PartsOfRead(text[..|text| - 1]);
      assert text == text[..|text| - 1] + end;
    } else {
      end := "";
      sign, fixed := PartsOfRead(text);
    }
  }

  ghost predicate IsCell(text: string, cell: Cell) {
    exists sign, fixed, end :: Matches(text, sign, cell.letters, fixed, cell.digits, end)
  }

  /** The cell pattern, both ways. */
  lemma ParseCellIff(text: string, cell: Cell)
    ensures ParseCell(text) == Some(cell) <==> IsCell(text, cell)
  {
    if ParseCell(text) == Some(cell) {
      var sign, fixed, end := ParseCellMatches(text);
    }
    if IsCell(text, cell) {
      var sign, fixed, end :| Matches(text, sign, cell.letters, fixed, cell.digits, end);
      ParseCellReads(text, sign, cell.letters, fixed, cell.digits, end);
    }
  }

  function CellColumn(cell: Cell): (col: Option<nat>)
    requires |cell.letters| <= 3 && forall c | c in cell.letters :: IsLetter(c)
    ensures col.Some? ==> col.value < 18278
  {
    if cell.letters == "" then None
    else
      var upper := UpperCase(cell.letters);
      ShortColumns(upper);
      Some(ColumnNumber(upper) - 1)
  }

  lemma {:induction false} ShortColumns(s: string)
    requires IsColumn(s) && s != "" && |s| <= 3
    ensures 1 <= ColumnNumber(s) <= 18278
  {
    hide ColumnNumber, ColumnText;
    ColumnsAndIndexes(ColumnNumber(s) - 1, s);
  }

  function CellRow(cell: Cell): Option<nat>
    requires AllDigits(cell.digits)
  {
    if cell.digits == "" then None else Some(NatOf(cell.digits))
  }

  function LastIndexOf(s: string, c: char): (k: nat)
    requires c in s
    ensures k < |s| && s[k] == c && c !in s[k + 1..]
  {
    if s[|s| - 1] == c then |s| - 1
    else
      assert s == s[..|s| - 1] + [s[|s| - 1]];
      var k := LastIndexOf(s[..|s| - 1], c);
      assert s[k + 1..] == s[..|s| - 1][k + 1..] + [s[|s| - 1]];
      k
  }

  /** `s.strip("'")`. */
  function StripQuotes(s: string): string {
    if s == "" then s
    else if s[0] == '\'' then StripQuotes(s[1..])
    else if s[|s| - 1] == '\'' then StripQuotes(s[..|s| - 1])
    else s
  }

  predicate LooksLikeCells(text: string) {
    var parts := SplitOn(text, ':');
    |parts| <= 2 && forall p | p in parts :: ParseCell(p).Some? && p != ""
  }

  /** The title in front of the last `!`, unquoted if it is quoted. */
  function SheetTitle(raw: string): string {
    var sheet := Strip(raw);
    if sheet != "" && sheet[0] == '\'' && sheet[|sheet| - 1] == '\'' then
      HalveQuotes(if |sheet| >= 2 then sheet[1..|sheet| - 1] else "")
    else sheet
  }

  function ParseCells(sheet: Option<string>, cells: string): Result<A1, RangeError> {
    var parts := SplitOn(cells, ':');
    if |parts| > 2 then Err(CannotParse)
    else
      var start := ParseCell(parts[0]);
      var end := if |parts| == 2 then ParseCell(parts[1]) else start;
      if start.None? || end.None? || (start.value.letters == "" && start.value.digits == "") then Err(CannotParse)
      else
        var startRow, endRow := CellRow(start.value), CellRow(end.value);
        if startRow == Some(0) || endRow == Some(0) then Err(RowsStartAtOne)
        else Ok(A1(sheet, Some(cells), startRow, CellColumn(start.value), endRow, CellColumn(end.value)))
  }

  // One cell, or two with a colon between.
  ghost predicate IsCells(cells: string, start: Cell, end: Cell) {
    var k := IndexOf(cells, ':');
    if k == |cells| then start == end && IsCell(cells, start)
    else IsCell(cells[..k], start) && ':' !in cells[k + 1..] && IsCell(cells[k + 1..], end)
  }

  ghost predicate GivesRange(sheet: Option<string>, cells: string, start: Cell, end: Cell, a: A1) {
    && (start.letters != "" || start.digits != "")
    && a.sheet == sheet && a.cells == Some(cells) && a.startRow != Some(0) && a.endRow != Some(0)
    && GivesEnd(start, a.startCol, a.startRow) && GivesEnd(end, a.endCol, a.endRow)
  }

  // A column in capitals and a row, each open where the cell has none.
  ghost predicate GivesEnd(cell: Cell, col: Option<nat>, row: Option<nat>) {
    && (col.None? <==> cell.letters == "") && (row.None? <==> cell.digits == "")
    && (col.Some? ==> ColumnText(col.value + 1) == UpperCase(cell.letters))
    && (row.Some? ==> AllDigits(cell.digits) && NatOf(cell.digits) == row.value)
  }

  lemma OneOrTwoParts(cells: string)
    ensures var k, parts := IndexOf(cells, ':'), SplitOn(cells, ':');
            && (k == |cells| ==> parts == [cells])
            && (k < |cells| ==> parts[0] == cells[..k] && |parts| >= 2
                                && (|parts| == 2 <==> ':' !in cells[k + 1..])
                                && (|parts| == 2 ==> parts[1] == cells[k + 1..]))
  {
    var k := IndexOf(cells, ':');
    if k < |cells| {
      var rest := cells[k + 1..];
      if ':' !in rest {
        SplitOnNone(rest, ':');
      } else {
        assert ':' !in rest[..|rest|] || IndexOf(rest, ':') < |rest|;
        assert rest[..|rest|] == rest;
      }
    }
  }

  lemma ColumnIff(letters: string, n: nat)
    requires forall c | c in letters :: IsLetter(c)
    ensures ColumnText(n) == UpperCase(letters) <==> n == ColumnNumber(UpperCase(letters))
  {
    TextOfNumber(UpperCase(letters));
    NumberOfText(n);
    hide ColumnNumber, ColumnText, UpperCase;
  }

  lemma EndIff(text: string, cell: Cell, col: Option<nat>, row: Option<nat>)
    requires ParseCell(text) == Some(cell)
    ensures GivesEnd(cell, col, row) <==> col == CellColumn(cell) && row == CellRow(cell)
  {
    hide ParseCell, ColumnNumber, ColumnText, UpperCase, NatOf;
    if col.Some? {
      ColumnIff(cell.letters, col.value + 1);
    }
    if cell.letters != "" {
      ColumnIff(cell.letters, ColumnNumber(UpperCase(cell.letters)));
    }
  }

  lemma CellsApart(cells: string, start: Cell, end: Cell)
    requires IsCells(cells, start, end)
    ensures var parts := SplitOn(cells, ':');
            && |parts| <= 2 && ParseCell(parts[0]) == Some(start)
            && (if |parts| == 2 then ParseCell(parts[1]) == Some(end) else end == start)
  {
    OneOrTwoParts(cells);
    var parts := SplitOn(cells, ':');
    ParseCellIff(parts[0], start);
    ParseCellIff(parts[|parts| - 1], end);
    hide SplitOn, ParseCell, IsCell;
  }

  lemma CellsGive(sheet: Option<string>, cells: string, start: Cell, end: Cell, a: A1)
    requires IsCells(cells, start, end) && GivesRange(sheet, cells, start, end, a)
    ensures ParseCells(sheet, cells) == Ok(a)
  {
    hide SplitOn, ParseCell, CellColumn, CellRow, GivesEnd, IsCells;
    CellsApart(cells, start, end);
    var parts := SplitOn(cells, ':');
    EndIff(parts[0], start, a.startCol, a.startRow);
    EndIff(parts[|parts| - 1], end, a.endCol, a.endRow);
  }

  lemma CellsGiven(sheet: Option<string>, cells: string, a: A1) returns (start: Cell, end: Cell)
    requires ParseCells(sheet, cells) == Ok(a)
    ensures IsCells(cells, start, end) && GivesRange(sheet, cells, start, end, a)
  {
    OneOrTwoParts(cells);
    var parts := SplitOn(cells, ':');
    start, end := ParseCell(parts[0]).value, ParseCell(parts[|parts| - 1]).value;
    ParseCellIff(parts[0], start);
    ParseCellIff(parts[|parts| - 1], end);
    EndIff(parts[0], start, a.startCol, a.startRow);
    EndIff(parts[|parts| - 1], end, a.endCol, a.endRow);
    hide SplitOn, ParseCell, CellColumn, CellRow, GivesEnd, IsCell;
  }

  /** The cell part of a range, both ways: one or two cells of the pattern, the first not empty and
      no row zero, each giving the row and the column of its own end; anything else is refused. */
  lemma ParseCellsIff(sheet: Option<string>, cells: string, a: A1)
    ensures ParseCells(sheet, cells) == Ok(a)
       <==> exists start, end :: IsCells(cells, start, end) && GivesRange(sheet, cells, start, end, a)
  {
    hide ParseCells, IsCells, GivesRange;
    if ParseCells(sheet, cells) == Ok(a) {
      var start, end := CellsGiven(sheet, cells, a);
    }
    if start, end :| IsCells(cells, start, end) && GivesRange(sheet, cells, start, end, a) {
      CellsGive(sheet, cells, start, end, a);
    }
  }

  function ParseRange(input: string): (r: Result<A1, RangeError>)
    ensures r.Ok? ==> Parsed(r.value)
  {
    var text := Strip(input);
    if text == "" then Err(EmptyRange)
    else if '!' in text then
      var k := LastIndexOf(text, '!');
      ParseCells(Some(SheetTitle(text[..k])), text[k + 1..])
    else if LooksLikeCells(text) then ParseCells(None, text)
    else Ok(A1(Some(HalveQuotes(StripQuotes(text))), None, None, None, None, None))
  }

  /** What every parsed range satisfies: columns of at most three letters, rows from 1. */
  predicate Parsed(a: A1) {
    && (a.startCol.Some? ==> a.startCol.value < 18278)
    && (a.endCol.Some? ==> a.endCol.value < 18278)
    && a.startRow != Some(0) && a.endRow != Some(0)
  }

  function Render(a: A1): string {
    var cells := if a.cells.Some? then a.cells.value else "";
    if a.sheet.None? then cells
    else QuoteSheet(a.sheet.value) + if cells == "" then "" else "!" + cells
  }

  // -- restricting rows --------------------------------------------------------------

  function ColumnOf(col: Option<nat>): string {
    if col.Some? then ColumnText(col.value + 1) else ""
  }

  function BoundedCells(a: A1, first: nat, last: nat): string {
    var c0, c1 := ColumnOf(a.startCol), ColumnOf(a.endCol);
    if c0 == "" && c1 == "" then Decimal(first) + ":" + Decimal(last)
    else (if c0 == "" then "A" else c0) + Decimal(first) + ":" + (if c1 == "" then "ZZZ" else c1) + Decimal(last)
  }

  function SheetPrefix(a: A1): string {
    if a.sheet.Some? then QuoteSheet(a.sheet.value) + "!" else ""
  }

  /** The same columns, restricted to rows first..last: printed, then parsed again. */
  function BoundedRows(a: A1, first: nat, last: nat): Result<A1, RangeError> {
    ParseRange(SheetPrefix(a) + BoundedCells(a, first, last))
  }

  // A single open column end becomes A or ZZZ.
  function ClosedColumn(col: Option<nat>, other: Option<nat>, edge: nat): Option<nat> {
    if col.Some? then col else if other.Some? then Some(edge) else None
  }

  /** What `bounded_rows` means. */
  function Bounded(a: A1, first: nat, last: nat): A1 {
    A1(a.sheet, Some(BoundedCells(a, first, last)),
       Some(first), ClosedColumn(a.startCol, a.endCol, 0),
       Some(last), ClosedColumn(a.endCol, a.startCol, 18277))
  }

  lemma {:induction false} LetterRunIs(letters: string, rest: string)
    requires forall c | c in letters :: IsLetter(c)
    requires rest == "" || !IsLetter(rest[0])
    ensures LetterRun(letters + rest) == |letters|
  {
    if letters == "" {
      assert letters + rest == rest;
    } else {
      assert letters[0] in letters;
      assert (letters + rest)[1..] == letters[1..] + rest;
      LetterRunIs(letters[1..], rest);
    }
  }

  lemma {:induction false} UpperStays(s: string)
    requires IsColumn(s)
    ensures UpperCase(s) == s
  {
    if s != "" {
      var init, last := s[..|s| - 1], s[|s| - 1];
      assert s == init + [last] && last in s;
      UpperStays(init);
    }
  }

  // Letters followed by digits are read apart again.
  lemma ParseCellParts(letters: string, digits: string)
    requires IsColumn(letters) && |letters| <= 3 && AllDigits(digits) && digits != ""
    ensures ParseCell(letters + digits) == Some(Cell(letters, digits))
  {
    hide Matches, AllDigits, ParseCell;
    assert "" + digits == digits && "" + (letters + digits) == letters + digits;
    PartsMatch(letters + digits, "", letters, "", digits);
    ParseCellReads(letters + digits, "", letters, "", digits, "");
  }

  predicate PlainText(p: string) {
    p != "" && forall c | c in p :: IsUpper(c) || IsDigit(c)
  }

  // A printed cell parses back to its column and row.
  lemma ParseCellBack(col: Option<nat>, row: nat)
    requires col.Some? ==> col.value < 18278
    requires row >= 1
    ensures Prints(ColumnOf(col) + Decimal(row), col, row)
  {
    hide ParseCell, Decimal, NatOf, ColumnText, ColumnNumber, UpperCase, PlainText, ReadCell;
    var letters, digits := ColumnOf(col), Decimal(row);
    if col.Some? {
      ColumnsAndIndexes(col.value, "A");
      UpperStays(letters);
    }
    DecimalRoundTrip(row);
    ParseCellParts(letters, digits);
    PlainParts(letters, digits);
  }

  lemma PlainParts(letters: string, digits: string)
    requires IsColumn(letters) && AllDigits(digits) && digits != ""
    ensures PlainText(letters + digits)
  {
  }

  lemma {:induction false} StripNothing(s: string)
    requires s == "" || (!IsSpace(s[0]) && !IsSpace(s[|s| - 1]))
    ensures Strip(s) == s
  {
  }

  // The cell part of a bounded range, as its two printed cells.
  lemma BoundedCellsAre(a: A1, first: nat, last: nat)
    ensures BoundedCells(a, first, last)
         == ColumnOf(ClosedColumn(a.startCol, a.endCol, 0)) + Decimal(first) + ":"
            + (ColumnOf(ClosedColumn(a.endCol, a.startCol, 18277)) + Decimal(last))
  {
    EdgeLetters();
    hide ColumnText, Decimal;
    var c0, c1 := ColumnOf(ClosedColumn(a.startCol, a.endCol, 0)), ColumnOf(ClosedColumn(a.endCol, a.startCol, 18277));
    assert c0 + Decimal(first) + ":" + c1 + Decimal(last) == c0 + Decimal(first) + ":" + (c1 + Decimal(last));
  }

  lemma EdgeLetters()
    ensures ColumnText(1) == "A" && ColumnText(18278) == "ZZZ"
  {
  }

  // What printing a column and a row gives.
  predicate Prints(p: string, col: Option<nat>, row: nat) {
    && PlainText(p) && ParseCell(p).Some?
    && CellColumn(ParseCell(p).value) == col && CellRow(ParseCell(p).value) == Some(row)
    && row >= 1
  }

  // Two printed cells with a colon between parse back to the range.
  lemma CellsParseBack(sheet: Option<string>, cells: string, p: string, startCol: Option<nat>, first: nat,
                       q: string, endCol: Option<nat>, last: nat)
    requires SplitOn(cells, ':') == [p, q]
    requires Prints(p, startCol, first) && Prints(q, endCol, last)
    ensures ParseCells(sheet, cells) == Ok(A1(sheet, Some(cells), Some(first), startCol, Some(last), endCol))
  {
    hide ParseCell, CellColumn, NatOf, SplitOn, PlainText;
  }

  lemma TwoCells(cells: string, p: string, q: string)
    requires SplitOn(cells, ':') == [p, q]
    requires PlainText(p) && PlainText(q) && ParseCell(p).Some? && ParseCell(q).Some?
    ensures LooksLikeCells(cells)
  {
  }

  predicate CellText(cells: string) {
    cells != "" && '!' !in cells && !IsSpace(cells[0]) && !IsSpace(cells[|cells| - 1])
  }

  lemma TwoParts(p: string, q: string)
    requires PlainText(p) && PlainText(q)
    ensures var cells := p + ":" + q;
            && SplitOn(cells, ':') == [p, q] && CellText(cells)
  {
    SplitOnFirst(p, q, ':');
    SplitOnNone(q, ':');
    var cells := p + ":" + q;
    assert p + [':'] + q == cells;
    hide SplitOn;
    assert cells[0] in p && cells[|cells| - 1] in q;
    assert forall c | c in cells :: c in p || c == ':' || c in q;
  }

  lemma SheetTitleBack(title: string)
    ensures SheetTitle(QuoteSheet(title)) == title
    ensures !IsSpace(QuoteSheet(title)[0])
  {
    var raw := QuoteSheet(title);
    StripNothing(raw);
    assert raw[1..|raw| - 1] == DoubleQuotes(title);
    HalveDoubled(title);
  }

  lemma NoneAfter(s: string, c: char, k: nat)
    requires k < |s| && c !in s[k + 1..]
    ensures forall m | k < m < |s| :: s[m] != c
  {
    assert forall m | k < m < |s| :: s[m] == s[k + 1..][m - k - 1];
  }

  lemma {:induction false} LastIs(s: string, c: char, k: nat)
    requires k < |s| && s[k] == c && c !in s[k + 1..]
    ensures LastIndexOf(s, c) == k
  {
    hide LastIndexOf;
    NoneAfter(s, c, k);
    NoneAfter(s, c, LastIndexOf(s, c));
  }

  lemma LastIndexIs(front: string, rest: string, c: char)
    requires c !in rest
    ensures c in front + [c] + rest && LastIndexOf(front + [c] + rest, c) == |front|
  {
    var s := front + [c] + rest;
    assert s[|front|] == c && s[|front| + 1..] == rest;
    LastIs(s, c, |front|);
  }

  // A quoted title in front of cell text.
  lemma TitledRange(title: string, cells: string)
    requires CellText(cells)
    ensures ParseRange(QuoteSheet(title) + "!" + cells) == ParseCells(Some(title), cells)
  {
    var raw := QuoteSheet(title);
    var text := raw + "!" + cells;
    SheetTitleBack(title);
    assert text == raw + ['!'] + cells;
    assert text[0] == raw[0] && text[|text| - 1] == cells[|cells| - 1];
    LastIndexIs(raw, cells, '!');
    assert text[..|raw|] == raw && text[|raw| + 1..] == cells;
    hide QuoteSheet, SheetTitle, ParseCells, LastIndexOf;
    StripNothing(text);
  }

  // Cell text on its own.
  lemma UntitledRange(cells: string)
    requires CellText(cells) && LooksLikeCells(cells)
    ensures ParseRange(cells) == ParseCells(None, cells)
  {
  }

  // The cell part of a bounded range parses to what the bounded range should be.
  lemma BoundedCellsParse(a: A1, first: nat, last: nat)
    requires Parsed(a) && first >= 1 && last >= 1
    ensures var cells := BoundedCells(a, first, last);
            && ParseCells(a.sheet, cells) == Ok(Bounded(a, first, last))
            && LooksLikeCells(cells) && CellText(cells)
  {
    var startCol, endCol := ClosedColumn(a.startCol, a.endCol, 0), ClosedColumn(a.endCol, a.startCol, 18277);
    ParseCellBack(startCol, first);
    ParseCellBack(endCol, last);
    BoundedCellsAre(a, first, last);
    hide BoundedCells, ParseCells, LooksLikeCells, ColumnOf, CellText, CellRow, CellColumn, PlainText, ParseCell,
      ClosedColumn, Parsed;
    var p, q := ColumnOf(startCol) + Decimal(first), ColumnOf(endCol) + Decimal(last);
    var cells := BoundedCells(a, first, last);
    TwoParts(p, q);
    TwoCells(cells, p, q);
    CellsParseBack(a.sheet, cells, p, startCol, first, q, endCol, last);
  }

  /** For every range the parser can produce and any rows from 1: restricting to them never fails,
      and gives those rows, the same sheet title whatever quotes or `!` it holds, every column
      bound that was given, and A or ZZZ for a single open end. */
  lemma BoundedRowsExact(a: A1, first: nat, last: nat)
    requires Parsed(a) && first >= 1 && last >= 1
    ensures BoundedRows(a, first, last) == Ok(Bounded(a, first, last))
  {
    BoundedCellsParse(a, first, last);
    var cells := BoundedCells(a, first, last);
    hide BoundedCells, ParseCells, LooksLikeCells, ParseRange, QuoteSheet, CellText, Bounded, Parsed;
    if a.sheet.None? {
      UntitledRange(cells);
      assert "" + cells == cells;
    } else {
      TitledRange(a.sheet.value, cells);
    }
  }

  lemma RendersAsPrinted(a: A1, first: nat, last: nat)
    ensures Render(Bounded(a, first, last)) == SheetPrefix(a) + BoundedCells(a, first, last)
  {
    var cells := BoundedCells(a, first, last);
    assert cells != "";
    hide BoundedCells, QuoteSheet, ColumnOf, Decimal;
    if a.sheet.None? {
      assert "" + cells == cells;
    } else {
      assert QuoteSheet(a.sheet.value) + ("!" + cells) == QuoteSheet(a.sheet.value) + "!" + cells;
    }
  }

  /** And its rendering parses to the same range again. */
  lemma BoundedRendersBack(a: A1, first: nat, last: nat)
    requires Parsed(a) && first >= 1 && last >= 1
    ensures ParseRange(Render(Bounded(a, first, last))) == Ok(Bounded(a, first, last))
    ensures Parsed(Bounded(a, first, last))
  {
    BoundedRowsExact(a, first, last);
    RendersAsPrinted(a, first, last);
    hide ParseRange, BoundedCells, Render, SheetPrefix;
  }

  // -- whole sheets ------------------------------------------------------------------

  lemma {:induction false} DoublingKeepsOthers(s: string, c: char)
    requires c != '\''
    ensures c in DoubleQuotes(s) <==> c in s
  {
    if s != "" {
      DoublingKeepsOthers(s[1..], c);
      assert s == [s[0]] + s[1..];
    }
  }

  // At the ends of a title, a quote stays a quote and anything else itself.
  lemma {:induction false} DoublingKeepsEnds(s: string)
    requires s != ""
    ensures var d := DoubleQuotes(s); d != "" && d[0] == s[0] && d[|d| - 1] == s[|s| - 1]
  {
    if |s| > 1 {
      DoublingKeepsEnds(s[1..]);
    } else {
      assert DoubleQuotes(s[1..]) == "";
    }
  }

  predicate QuoteEnds(s: string) {
    s != "" && (s[0] == '\'' || s[|s| - 1] == '\'')
  }

  lemma {:induction false} HalvingKeepsEnds(s: string)
    requires s != "" && !QuoteEnds(s)
    ensures var h := HalveQuotes(s); h != "" && h[0] == s[0] && h[|h| - 1] == s[|s| - 1]
    decreases |s|
  {
    HalvingKeepsEnd(s);
  }

  lemma {:induction false} HalvingKeepsEnd(s: string)
    requires s != "" && s[|s| - 1] != '\''
    ensures var h := HalveQuotes(s); h != "" && h[|h| - 1] == s[|s| - 1]
    decreases |s|
  {
    if |s| >= 2 && s[0] == '\'' && s[1] == '\'' {
      HalvingKeepsEnd(s[2..]);
    } else if |s| >= 2 {
      HalvingKeepsEnd(s[1..]);
    } else {
      assert HalveQuotes(s[1..]) == "";
    }
  }

  lemma {:induction false} StripQuotesEnds(s: string)
    ensures !QuoteEnds(StripQuotes(s))
    decreases |s|
  {
    if s != "" && s[0] == '\'' {
      StripQuotesEnds(s[1..]);
    } else if s != "" && s[|s| - 1] == '\'' {
      StripQuotesEnds(s[..|s| - 1]);
    }
  }

  lemma StripsToTitle(d: string)
    requires !QuoteEnds(d)
    ensures StripQuotes("'" + d + "'") == d
  {
    var raw := "'" + d + "'";
    var t := d + "'";
    assert raw[1..] == t && t[..|d|] == d;
    assert StripQuotes(raw) == StripQuotes(t);
    if d == "" {
      assert t[1..] == "" && StripQuotes(t[1..]) == "";
    } else {
      assert t[0] == d[0] && StripQuotes(t) == StripQuotes(d);
    }
  }

  lemma CellStarts(p: string)
    requires p != "" && ParseCell(p).Some?
    ensures p[0] != '\''
  {
    var sign, fixed, end := ParseCellMatches(p);
    var cell := ParseCell(p).value;
    assert p[0] in sign || p[0] in cell.letters || p[0] in fixed || p[0] in cell.digits || p[0] in end;
  }

  lemma QuotedIsNoCells(raw: string)
    requires raw != "" && raw[0] == '\''
    ensures !LooksLikeCells(raw)
  {
    var p := SplitOn(raw, ':')[0];
    assert p != "" && p[0] == '\'' by {
      assert IndexOf(raw, ':') != 0;
    }
    if ParseCell(p).Some? {
      CellStarts(p);
    }
  }

  /** Restricting a whole sheet quotes its title safely, but the title alone does not read back when
      it holds a `!`, or begins or ends with a quote: a whole-sheet range renders to text that
      parses to it again exactly when the title is neither. */
  lemma WholeSheetReadsBackIff(title: string)
    ensures var whole := A1(Some(title), None, None, None, None, None);
            ParseRange(Render(whole)) == Ok(whole)
            <==> '!' !in title && (title == "" || (title[0] != '\'' && title[|title| - 1] != '\''))
  {
    var whole := A1(Some(title), None, None, None, None, None);
    var d := DoubleQuotes(title);
    var raw := "'" + d + "'";
    assert Render(whole) == raw && raw[0] == '\'' && raw[|raw| - 1] == '\'';
    StripNothing(raw);
    DoublingKeepsOthers(title, '!');
    if title != "" {
      DoublingKeepsEnds(title);
    }
    QuotedIsNoCells(raw);
    HalveDoubled(title);
    StripQuotesEnds(raw);
    hide DoubleQuotes, HalveQuotes, StripQuotes, LooksLikeCells, ParseCells, Strip, LastIndexOf;
    if '!' in title {
      assert '!' in raw;
      WithCells(raw[..LastIndexOf(raw, '!')], raw[LastIndexOf(raw, '!') + 1..]);
    } else {
      assert '!' !in raw;
      if QuoteEnds(title) {
        if StripQuotes(raw) != "" {
          HalvingKeepsEnds(StripQuotes(raw));
        } else {
          assert HalveQuotes("") == "" by { HalvedNothing(); }
        }
      } else {
        StripsToTitle(d);
      }
    }
  }

  lemma HalvedNothing()
    ensures HalveQuotes("") == ""
  {
  }

  // A range with a `!` has a cell part.
  lemma WithCells(raw: string, cells: string)
    ensures ParseCells(Some(SheetTitle(raw)), cells).Ok? ==>
              ParseCells(Some(SheetTitle(raw)), cells).value.cells == Some(cells)
  {
  }
}
