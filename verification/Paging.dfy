/** `read_range`: one capped page of a sheet, and the pages that following `next_range` gives. */
module Paging {
  import opened Wrappers
  import opened A1Notation
  import opened Sequences
  import Headers

  // -- what the service answers ------------------------------------------------------

  type Row = seq<string>

  function EdgeColumn(col: Option<nat>, edge: nat): nat {
    if col.Some? then col.value else edge
  }

  /** The cells of a row between two columns; an open end runs to the edge, columns A and ZZZ. */
  function Cut(row: Row, startCol: Option<nat>, endCol: Option<nat>): Row {
    var lo, hi := EdgeColumn(startCol, 0), EdgeColumn(endCol, 18277) + 1;
    var to := if hi <= |row| then hi else |row|;
    if lo <= to then row[lo..to] else []
  }

  /** The sheet as seen through the columns of a range, every row of it. */
  function Through(sheet: seq<Row>, a: A1): (rows: seq<Row>)
    ensures |rows| == |sheet|
  {
    seq(|sheet|, i requires 0 <= i < |sheet| => Cut(sheet[i], a.startCol, a.endCol))
  }

  /** Cell by cell: column A, or the first one asked for, comes first, and no cell after the last. */
  lemma ThroughShows(sheet: seq<Row>, a: A1, i: nat, col: nat)
    requires i < |sheet|
    ensures var from := if a.startCol.Some? then a.startCol.value else 0;
            var shown := col < |sheet[i]| && from <= col <= if a.endCol.Some? then a.endCol.value else 18277;
            && (shown <==> from <= col < from + |Through(sheet, a)[i]|)
            && (shown ==> Through(sheet, a)[i][col - from] == sheet[i][col])
  {
  }

  predicate Blank(row: Row) {
    forall cell | cell in row :: cell == ""
  }

  // The service drops blank rows at the end.
  function DropBlankTail(rows: seq<Row>): (kept: seq<Row>)
    ensures kept <= rows
    ensures kept != [] ==> !Blank(kept[|kept| - 1])
  {
    if rows != [] && Blank(rows[|rows| - 1]) then DropBlankTail(rows[..|rows| - 1]) else rows
  }

  /** Rows first..last of the columns, counted from 1, as far as the sheet goes. */
  function Window(rows: seq<Row>, first: nat, last: nat): seq<Row>
    requires first >= 1
  {
    var to := if last <= |rows| then last else |rows|;
    if first <= to then rows[first - 1..to] else []
  }

  function FirstRow(a: A1): (first: nat)
    requires Parsed(a)
    ensures first >= 1
  {
    if a.startRow.Some? then a.startRow.value else 1
  }

  function Fetch(sheet: seq<Row>, a: A1): seq<Row>
    requires Parsed(a)
  {
    var rows := Through(sheet, a);
    DropBlankTail(Window(rows, FirstRow(a), if a.endRow.Some? then a.endRow.value else |rows|))
  }

  // -- one page ----------------------------------------------------------------------

  datatype ReadResult = ReadResult(values: seq<Row>, fetched: A1, truncated: bool)

  function Truncate(values: seq<Row>, cap: nat): (seq<Row>, bool) {
    if |values| <= cap then (values, false) else (values[..cap], true)
  }

  lemma TruncateIs(values: seq<Row>, cap: nat)
    ensures Truncate(values, cap).1 <==> |values| > cap
  {
  }

  predicate OpenRows(a: A1) {
    a.startRow.None? || a.endRow.None?
  }

  /** `_Sheets.read`: an open range is bounded to one row more than the cap. */
  function Read(sheet: seq<Row>, a: A1, cap: nat): (r: Result<ReadResult, RangeError>)
    requires Parsed(a)
    ensures r.Ok? ==> Parsed(r.value.fetched)
  {
    var fetch := if OpenRows(a) then BoundedRows(a, FirstRow(a), FirstRow(a) + cap) else Ok(a);
    match fetch
    case Err(e) => Err(e)
    case Ok(fetched) =>
      var (values, truncated) := Truncate(Fetch(sheet, fetched), cap);
      Ok(ReadResult(values, fetched, truncated))
  }

  function NextRange(a: A1, returned: nat): Result<string, RangeError>
    requires Parsed(a)
  {
    var first := FirstRow(a) + returned;
    match BoundedRows(a, first, first + 999)
    case Err(e) => Err(e)
    case Ok(b) => Ok(Render(b))
  }

  function Width(values: seq<Row>): (width: nat)
    ensures forall row | row in values :: |row| <= width
  {
    if values == [] then 0
    else
      var width := Width(values[1..]);
      assert values == [values[0]] + values[1..];
      if |values[0]| > width then |values[0]| else width
  }

  function Pad(row: Row, width: nat): (padded: Row)
    requires |row| <= width
    ensures |padded| == width
  {
    row + seq(width - |row|, _ => "")
  }

  /** What is shown of a page: a grid, or objects keyed by the first row. */
  datatype Shape =
    | Grid(values: seq<Row>, rowNumbers: seq<nat>)
    | Objects(headers: Row, rows: seq<map<string, string>>, rowNumbers: seq<nat>)

  // `list(range(start, start + n))`
  function Count(start: nat, n: nat): (numbers: seq<nat>)
    ensures |numbers| == n
  {
    seq(n, i requires 0 <= i < n => start + i)
  }

  // The rows after the header row, keyed by it.
  function ObjectsOf(headers: Row, values: seq<Row>): (objects: seq<map<string, string>>)
    requires values != [] && forall row | row in values :: |row| <= |headers|
    ensures |objects| == |values| - 1
  {
    seq(|values| - 1, i requires 0 <= i < |values| - 1 =>
      Headers.RowObject(headers, Pad(values[i + 1], |headers|)))
  }

  function ShapeOf(values: seq<Row>, startRow: nat, hasHeader: bool): Shape {
    var width := Width(values);
    if hasHeader && values != [] then
      var headers := Headers.RenamedAll(Headers.FilledNames(Pad(values[0], width)));
      Objects(headers, ObjectsOf(headers, values), Count(startRow + 1, |values| - 1))
    else
      Grid(seq(|values|, i requires 0 <= i < |values| => Pad(values[i], width)), Count(startRow, |values|))
  }

  // `width` is the length of the longest row.
  predicate Widest(values: seq<Row>, width: nat) {
    && (forall row | row in values :: |row| <= width)
    && (values != [] ==> exists row | row in values :: |row| == width)
    && (values == [] ==> width == 0)
  }

  // A row brought to a width with empty cells.
  predicate Padded(row: Row, width: nat, shown: Row) {
    |shown| == width && forall j | 0 <= j < width :: shown[j] == Headers.CellAt(row, j)
  }

  /** What a page shows of the rows read, said of it alone: numbers that count on from the first
      row, and either every row as wide as the widest, or headers from the first row at that width
      and each row after it as an object with exactly those keys. */
  ghost predicate Shows(shape: Shape, values: seq<Row>, first: nat, header: bool) {
    exists width :: Widest(values, width) && ShowsAt(shape, values, width, first, header)
  }

  ghost predicate ShowsAt(shape: Shape, values: seq<Row>, width: nat, first: nat, header: bool) {
    match shape
    case Grid(grid, numbers) =>
      && !(header && values != [])
      && |grid| == |numbers| == |values|
      && (forall i | 0 <= i < |values| :: numbers[i] == first + i && Padded(values[i], width, grid[i]))
    case Objects(headers, objects, numbers) =>
      && header && values != []
      && |objects| == |numbers| == |values| - 1
      && (exists names :: Headers.HeadersFrom(values[0], width, names, headers))
      && (forall i | 0 <= i < |objects| ::
            numbers[i] == first + 1 + i && Headers.KeyedBy(headers, values[i + 1], objects[i]))
  }

  lemma {:induction false} WidthIs(values: seq<Row>)
    ensures Widest(values, Width(values))
  {
    if values != [] {
      WidthIs(values[1..]);
      assert values == [values[0]] + values[1..];
      if |values[0]| > Width(values[1..]) || values[1..] == [] {
        assert values[0] in values;
      }
    }
  }

  lemma HeaderRow(row: Row, width: nat)
    requires |row| <= width
    ensures var names := Headers.FilledNames(Pad(row, width));
            Headers.HeadersFrom(row, width, names, Headers.RenamedAll(names))
  {
    PadIs(row, width);
    Headers.HeadersAre(row, Pad(row, width));
  }

  lemma ObjectsAre(headers: Row, values: seq<Row>)
    requires values != [] && forall row | row in values :: |row| <= |headers|
    ensures forall i | 0 <= i < |values| - 1 ::
              Headers.KeyedBy(headers, values[i + 1], ObjectsOf(headers, values)[i])
  {
    hide Headers.KeyedBy, Headers.RowObject;
    forall i | 0 <= i < |values| - 1
      ensures Headers.KeyedBy(headers, values[i + 1], ObjectsOf(headers, values)[i])
    {
      PadIs(values[i + 1], |headers|);
      Headers.ObjectIs(headers, values[i + 1], Pad(values[i + 1], |headers|));
    }
  }

  lemma ObjectsShow(values: seq<Row>, width: nat, first: nat)
    requires values != [] && width == Width(values)
    ensures ShowsAt(ShapeOf(values, first, true), values, width, first, true)
  {
    HeaderRow(values[0], width);
    ObjectsAre(Headers.RenamedAll(Headers.FilledNames(Pad(values[0], width))), values);
    hide Width, Pad, ObjectsOf, Headers.RenamedAll, Headers.FilledNames, Headers.KeyedBy, Headers.HeadersFrom;
  }

  lemma PadIs(row: Row, width: nat)
    requires |row| <= width
    ensures Padded(row, width, Pad(row, width))
  {
  }

  lemma GridShows(values: seq<Row>, width: nat, first: nat, header: bool)
    requires width == Width(values) && !(header && values != [])
    ensures ShowsAt(ShapeOf(values, first, header), values, width, first, header)
  {
    forall i | 0 <= i < |values|
      ensures Padded(values[i], width, Pad(values[i], width))
    {
      PadIs(values[i], width);
    }
    hide Width, Pad, Padded;
  }

  lemma ShapeShows(values: seq<Row>, first: nat, header: bool)
    ensures Shows(ShapeOf(values, first, header), values, first, header)
  {
    var width := Width(values);
    WidthIs(values);
    if header && values != [] {
      ObjectsShow(values, width, first);
    } else {
      GridShows(values, width, first, header);
    }
    hide ShowsAt, ShapeOf, Width, Widest;
  }

  datatype Page = Page(values: seq<Row>, shape: Shape, next: Option<string>)

  /** One call of `read_range` on a resolved range. */
  function ReadPage(sheet: seq<Row>, a: A1, cap: nat, hasHeader: Option<bool>): Result<Page, RangeError>
    requires Parsed(a)
  {
    match Read(sheet, a, cap)
    case Err(e) => Err(e)
    case Ok(read) =>
      var header := if hasHeader.Some? then hasHeader.value else FirstRow(a) == 1;
      var shape := ShapeOf(read.values, FirstRow(a), header);
      if !read.truncated then Ok(Page(read.values, shape, None))
      else
        match NextRange(read.fetched, |read.values|)
        case Err(e) => Err(e)
        case Ok(next) => Ok(Page(read.values, shape, Some(next)))
  }

  // -- each page ---------------------------------------------------------------------

  // Closing a single open column end shows the same cells.
  lemma BoundedShowsTheSame(sheet: seq<Row>, a: A1, first: nat, last: nat)
    requires Parsed(a)
    ensures Through(sheet, Bounded(a, first, last)) == Through(sheet, a)
  {
  }

  /** Which rows a page asks for: to one past the cap if the range is open. */
  function LastAsked(a: A1, cap: nat): nat
    requires Parsed(a)
  {
    if OpenRows(a) then FirstRow(a) + cap else a.endRow.value
  }

  function Asked(sheet: seq<Row>, a: A1, cap: nat): seq<Row>
    requires Parsed(a)
  {
    DropBlankTail(Window(Through(sheet, a), FirstRow(a), LastAsked(a, cap)))
  }

  function Fetched(a: A1, cap: nat): A1
    requires Parsed(a)
  {
    if OpenRows(a) then Bounded(a, FirstRow(a), FirstRow(a) + cap) else a
  }

  // The range a truncated page names next.
  function NextA1(a: A1, cap: nat): A1
    requires Parsed(a)
  {
    Bounded(Fetched(a, cap), FirstRow(a) + cap, FirstRow(a) + cap + 999)
  }

  lemma BoundedRowNumbers(a: A1, first: nat, last: nat)
    requires Parsed(a) && first >= 1 && last >= 1
    ensures Parsed(Bounded(a, first, last)) && Bounded(a, first, last).startRow == Some(first)
    ensures Bounded(a, first, last).endRow == Some(last) && Bounded(a, first, last).sheet == a.sheet
  {
  }

  lemma ReadIs(sheet: seq<Row>, a: A1, cap: nat)
    requires Parsed(a) && cap >= 1
    ensures Parsed(Fetched(a, cap)) && FirstRow(Fetched(a, cap)) == FirstRow(a)
    ensures Fetched(a, cap).sheet == a.sheet && Through(sheet, Fetched(a, cap)) == Through(sheet, a)
    ensures Read(sheet, a, cap) == Ok(ReadResult(Truncate(Asked(sheet, a, cap), cap).0, Fetched(a, cap),
                                                 |Asked(sheet, a, cap)| > cap))
  {
    hide BoundedRows, Bounded, Through, DropBlankTail, Window, Truncate;
    BoundedRowsExact(a, FirstRow(a), FirstRow(a) + cap);
    BoundedShowsTheSame(sheet, a, FirstRow(a), FirstRow(a) + cap);
    BoundedRowNumbers(a, FirstRow(a), FirstRow(a) + cap);
    TruncateIs(Asked(sheet, a, cap), cap);
  }

  lemma NextIs(sheet: seq<Row>, a: A1, cap: nat)
    requires Parsed(a) && cap >= 1 && Parsed(Fetched(a, cap)) && FirstRow(Fetched(a, cap)) == FirstRow(a)
    ensures var next := NextA1(a, cap);
            && Parsed(next) && next.sheet == Fetched(a, cap).sheet
            && next.startRow == Some(FirstRow(a) + cap) && next.endRow == Some(FirstRow(a) + cap + 999)
            && Through(sheet, next) == Through(sheet, Fetched(a, cap))
            && NextRange(Fetched(a, cap), cap) == Ok(Render(next)) && ParseRange(Render(next)) == Ok(next)
  {
    hide Fetched, BoundedRows, Bounded, Through, ParseRange, Render;
    var fetched, from := Fetched(a, cap), FirstRow(a) + cap;
    BoundedShowsTheSame(sheet, fetched, from, from + 999);
    BoundedRowNumbers(fetched, from, from + 999);
    BoundedRowsExact(fetched, from, from + 999);
    BoundedRendersBack(fetched, from, from + 999);
  }

  // The page, as the functions compute it.
  lemma PageComputes(sheet: seq<Row>, a: A1, cap: nat, hasHeader: Option<bool>)
    requires Parsed(a) && cap >= 1
    ensures ReadPage(sheet, a, cap, hasHeader).Ok?
    ensures var page, next := ReadPage(sheet, a, cap, hasHeader).value, NextA1(a, cap);
            && page.values == Truncate(Asked(sheet, a, cap), cap).0
            && page.shape == ShapeOf(page.values, FirstRow(a),
                                     if hasHeader.Some? then hasHeader.value else FirstRow(a) == 1)
            && (page.next.Some? <==> |Asked(sheet, a, cap)| > cap)
            && Parsed(next) && next.sheet == a.sheet
            && next.startRow == Some(FirstRow(a) + cap) && next.endRow == Some(FirstRow(a) + cap + 999)
            && Through(sheet, next) == Through(sheet, a)
            && (page.next.Some? ==> |page.values| == cap && ParseRange(page.next.value) == Ok(next))
  {
    hide NextA1, Fetched, Through, Asked, Read, NextRange, ParseRange, Render, ShapeOf, FirstRow;
    ReadIs(sheet, a, cap);
    NextIs(sheet, a, cap);
  }

  /** Reading never fails. The page shows the first `cap` of the rows asked for, with headers as
      asked or else exactly when they start at row one, and if there are more it names a range that
      parses to the same sheet and the same columns from the very next row on. */
  lemma PageIs(sheet: seq<Row>, a: A1, cap: nat, hasHeader: Option<bool>)
    requires Parsed(a) && cap >= 1
    ensures ReadPage(sheet, a, cap, hasHeader).Ok?
    ensures var page, next := ReadPage(sheet, a, cap, hasHeader).value, NextA1(a, cap);
            var asked, start := Asked(sheet, a, cap), if a.startRow.Some? then a.startRow.value else 1;
            var header := if hasHeader.Some? then hasHeader.value else start == 1;
            && page.values == (if |asked| > cap then asked[..cap] else asked)
            && Shows(page.shape, page.values, start, header)
            && (page.next.Some? <==> |Asked(sheet, a, cap)| > cap)
            && Parsed(next) && next.sheet == a.sheet
            && next.startRow == Some(start + cap) && next.endRow == Some(start + cap + 999)
            && Through(sheet, next) == Through(sheet, a)
            && (page.next.Some? ==> |page.values| == cap && ParseRange(page.next.value) == Ok(next))
  {
    hide NextA1, Through, Asked, ReadPage, ParseRange, ShapeOf, Shows;
    PageComputes(sheet, a, cap, hasHeader);
    var page := ReadPage(sheet, a, cap, hasHeader).value;
    ShapeShows(page.values, FirstRow(a), if hasHeader.Some? then hasHeader.value else FirstRow(a) == 1);
  }

  // A row stands where its number says, padded with empty cells.
  predicate Shown(rows: seq<Row>, number: nat, shown: Row) {
    1 <= number <= |rows| && rows[number - 1] <= shown
  }

  predicate ShownByHeader(rows: seq<Row>, number: nat, headers: Row, shown: map<string, string>) {
    && 1 <= number <= |rows| && |rows[number - 1]| <= |headers|
    && (Distinct(headers) ==>
          forall j | 0 <= j < |rows[number - 1]| ::
            headers[j] in shown && shown[headers[j]] == rows[number - 1][j])
  }

  /** The numbers shown with `count` rows are their true numbers in the sheet: of grid rows, or with
      a header of the rows after it; and unless headers clash each object holds its row's cells. */
  predicate NumbersAreTrue(shape: Shape, rows: seq<Row>, count: nat) {
    match shape
    case Grid(values, numbers) =>
      |values| == |numbers| == count && forall i | 0 <= i < |values| :: Shown(rows, numbers[i], values[i])
    case Objects(headers, objects, numbers) =>
      |objects| == |numbers| == count - 1
      && forall i | 0 <= i < |objects| :: ShownByHeader(rows, numbers[i], headers, objects[i])
  }

  lemma ObjectShowsRow(rows: seq<Row>, number: nat, headers: Row, row: Row)
    requires 1 <= number <= |rows| && rows[number - 1] == row && |row| <= |headers|
    ensures ShownByHeader(rows, number, headers, Headers.RowObject(headers, Pad(row, |headers|)))
  {
    if Distinct(headers) {
      Headers.DistinctKeepsCells(headers, Pad(row, |headers|));
    }
  }

  lemma GridNumbers(rows: seq<Row>, values: seq<Row>, first: nat)
    requires first >= 1 && first - 1 + |values| <= |rows| && values == rows[first - 1..first - 1 + |values|]
    ensures NumbersAreTrue(ShapeOf(values, first, false), rows, |values|)
  {
  }

  lemma ObjectNumbers(rows: seq<Row>, values: seq<Row>, first: nat)
    requires values != []
    requires first >= 1 && first - 1 + |values| <= |rows| && values == rows[first - 1..first - 1 + |values|]
    ensures NumbersAreTrue(ShapeOf(values, first, true), rows, |values|)
  {
    hide Width, Pad, ShownByHeader, Headers.RenamedAll, Headers.FilledNames, Headers.RowObject;
    var width := Width(values);
    var headers := Headers.RenamedAll(Headers.FilledNames(Pad(values[0], width)));
    forall k | 1 <= k < |values|
      ensures ShownByHeader(rows, first + k, headers, Headers.RowObject(headers, Pad(values[k], width)))
    {
      ObjectShowsRow(rows, first + k, headers, values[k]);
    }
  }

  lemma NumbersOfAsked(sheet: seq<Row>, a: A1, cap: nat, header: bool)
    requires Parsed(a)
    ensures var values := Truncate(Asked(sheet, a, cap), cap).0;
            NumbersAreTrue(ShapeOf(values, FirstRow(a), header), Through(sheet, a), |values|)
  {
    hide Through, Asked, ShapeOf, NumbersAreTrue;
    AskedIsPrefix(sheet, a, cap);
    var values := Truncate(Asked(sheet, a, cap), cap).0;
    var rows, first := Through(sheet, a), FirstRow(a);
    if values == [] {
      NothingToNumber(rows, first);
    } else {
      assert values == rows[first - 1..][..|values|];
      if header {
        ObjectNumbers(rows, values, first);
      } else {
        GridNumbers(rows, values, first);
      }
    }
  }

  /** Whatever the range and the header choice, a page's row numbers are true. */
  lemma RowNumbersAreTrue(sheet: seq<Row>, a: A1, cap: nat, hasHeader: Option<bool>)
    requires Parsed(a) && cap >= 1 && ReadPage(sheet, a, cap, hasHeader).Ok?
    ensures var page := ReadPage(sheet, a, cap, hasHeader).value;
            NumbersAreTrue(page.shape, Through(sheet, a), |page.values|)
  {
    hide ReadPage, Through, Asked, ShapeOf, NumbersAreTrue, Truncate, NextA1, FirstRow;
    PageComputes(sheet, a, cap, hasHeader);
    NumbersOfAsked(sheet, a, cap, if hasHeader.Some? then hasHeader.value else FirstRow(a) == 1);
  }

  lemma NothingToNumber(rows: seq<Row>, first: nat)
    ensures NumbersAreTrue(ShapeOf([], first, true), rows, 0) && NumbersAreTrue(ShapeOf([], first, false), rows, 0)
  {
  }

  // The rows from a range's first row on.
  function Rest(sheet: seq<Row>, a: A1): (rest: seq<Row>)
    requires Parsed(a)
    ensures rest != [] ==> FirstRow(a) <= |sheet|
  {
    if FirstRow(a) <= |sheet| then Through(sheet, a)[FirstRow(a) - 1..] else []
  }

  lemma AskedIsPrefix(sheet: seq<Row>, a: A1, cap: nat)
    requires Parsed(a)
    ensures Asked(sheet, a, cap) <= Rest(sheet, a)
  {
  }

  // -- all the pages -----------------------------------------------------------------

  /** Follow `next_range` until a page names none. */
  function Follow(sheet: seq<Row>, a: A1, cap: nat): (pages: seq<Page>)
    requires Parsed(a) && cap >= 1
    decreases |sheet| + 1 - FirstRow(a)
  {
    PageComputes(sheet, a, cap, None);
    var page := ReadPage(sheet, a, cap, None).value;
    if page.next.None? then [page]
    else
      var next := ParseRange(page.next.value).value;
      assert |Asked(sheet, a, cap)| <= |sheet| + 1 - FirstRow(a);
      [page] + Follow(sheet, next, cap)
  }

  function AllValues(pages: seq<Page>): seq<Row> {
    if pages == [] then [] else pages[0].values + AllValues(pages[1..])
  }

  lemma RestGoesOn(sheet: seq<Row>, a: A1, b: A1, cap: nat)
    requires Parsed(a) && Parsed(b) && cap < |Rest(sheet, a)|
    requires b.startRow == Some(FirstRow(a) + cap) && Through(sheet, b) == Through(sheet, a)
    ensures Rest(sheet, b) == Rest(sheet, a)[cap..]
  {
  }

  // The pages from a range on: its own, then those of the range it names.
  lemma FollowIs(sheet: seq<Row>, a: A1, cap: nat)
    requires Parsed(a) && cap >= 1
    ensures var asked, next := Asked(sheet, a, cap), NextA1(a, cap);
            && Parsed(next) && next.startRow == Some(FirstRow(a) + cap) && next.endRow == Some(FirstRow(a) + cap + 999)
            && Through(sheet, next) == Through(sheet, a)
            && AllValues(Follow(sheet, a, cap))
               == if |asked| > cap then asked[..cap] + AllValues(Follow(sheet, next, cap)) else asked
  {
    PageComputes(sheet, a, cap, None);
    var pages, next := Follow(sheet, a, cap), NextA1(a, cap);
    var page := ReadPage(sheet, a, cap, None).value;
    hide Asked, NextA1, ReadPage, Through, Rest;
    if page.next.Some? {
      assert pages == [page] + Follow(sheet, next, cap);
      assert pages[1..] == Follow(sheet, next, cap);
    } else {
      assert pages[1..] == [];
    }
  }

  /** On any grid, following `next_range` repeats and skips no row: the pages in order are the
      rows from the first one on, without a gap, up to where the pages stop. */
  lemma {:induction false} PagesAreContiguous(sheet: seq<Row>, a: A1, cap: nat)
    requires Parsed(a) && cap >= 1
    ensures AllValues(Follow(sheet, a, cap)) <= Rest(sheet, a)
    decreases |sheet| + 1 - FirstRow(a)
  {
    FollowIs(sheet, a, cap);
    AskedIsPrefix(sheet, a, cap);
    var next := NextA1(a, cap);
    hide Asked, NextA1, ReadPage, Through, Rest, Follow, AllValues;
    if |Asked(sheet, a, cap)| > cap {
      PagesAreContiguous(sheet, next, cap);
      RestGoesOn(sheet, a, next, cap);
      PrefixGrows(Rest(sheet, a), Asked(sheet, a, cap), cap, AllValues(Follow(sheet, next, cap)));
    }
  }

  lemma PrefixGrows(rest: seq<Row>, asked: seq<Row>, cap: nat, later: seq<Row>)
    requires asked <= rest && cap <= |asked| && later <= rest[cap..]
    ensures asked[..cap] + later <= rest
  {
  }

  predicate NoBlankRows(rows: seq<Row>) {
    forall row | row in rows :: !Blank(row)
  }

  // Without blank rows a page is offered all the rows up to the last one it asks for.
  lemma AskedAll(sheet: seq<Row>, a: A1, cap: nat)
    requires Parsed(a) && NoBlankRows(Through(sheet, a))
    requires FirstRow(a) <= LastAsked(a, cap) + 1
    ensures var n := LastAsked(a, cap) + 1 - FirstRow(a);
            Asked(sheet, a, cap) == if n <= |Rest(sheet, a)| then Rest(sheet, a)[..n] else Rest(sheet, a)
  {
  }

  function Least(m: int, n: int): int {
    if m <= n then m else n
  }

  // One page and what follows it, on a grid without blank rows.
  lemma FirstPage(sheet: seq<Row>, a: A1, cap: nat)
    requires Parsed(a) && cap >= 1 && NoBlankRows(Through(sheet, a))
    requires FirstRow(a) <= LastAsked(a, cap) + 1
    ensures var rest, next := Rest(sheet, a), NextA1(a, cap);
            var n := Least(LastAsked(a, cap) + 1 - FirstRow(a), |rest|);
            && Parsed(next) && next.startRow == Some(FirstRow(a) + cap) && next.endRow == Some(FirstRow(a) + cap + 999)
            && Through(sheet, next) == Through(sheet, a)
            && (n <= cap ==> AllValues(Follow(sheet, a, cap)) == rest[..n])
            && (n > cap ==> && Rest(sheet, next) == rest[cap..]
                            && AllValues(Follow(sheet, a, cap)) == rest[..cap] + AllValues(Follow(sheet, next, cap)))
  {
    hide Asked, NextA1, ReadPage, Through, Rest, NoBlankRows, Follow, AllValues, LastAsked, FirstRow;
    FollowIs(sheet, a, cap);
    AskedAll(sheet, a, cap);
    var rest := Rest(sheet, a);
    var n := Least(LastAsked(a, cap) + 1 - FirstRow(a), |rest|);
    assert Asked(sheet, a, cap) == rest[..n];
    if n > cap {
      RestGoesOn(sheet, a, NextA1(a, cap), cap);
      TakeTwice(rest, n, cap);
    }
  }

  lemma TakeTwice(rest: seq<Row>, n: nat, cap: nat)
    requires cap <= n <= |rest|
    ensures rest[..n][..cap] == rest[..cap]
  {
  }

  lemma PrefixThenRest(rest: seq<Row>, cap: nat, later: seq<Row>)
    requires cap <= |rest|
    ensures rest[..cap] + later == rest <==> later == rest[cap..]
  {
  }

  /** A closed range of 1000 rows, as `next_range` names it, goes on to the end of the sheet exactly
      when the cap is below 1000 or the range reaches that far. */
  lemma {:induction false} ClosedPages(sheet: seq<Row>, a: A1, cap: nat)
    requires Parsed(a) && cap >= 1 && NoBlankRows(Through(sheet, a))
    requires a.startRow.Some? && a.endRow == Some(a.startRow.value + 999)
    ensures AllValues(Follow(sheet, a, cap)) == Rest(sheet, a) <==> cap < 1000 || |Rest(sheet, a)| <= 1000
    decreases |sheet| + 1 - FirstRow(a)
  {
    hide NextA1, Through, Rest, NoBlankRows, Follow, AllValues;
    FirstPage(sheet, a, cap);
    var rest, next := Rest(sheet, a), NextA1(a, cap);
    if Least(1000, |rest|) > cap {
      ClosedPages(sheet, next, cap);
      PrefixThenRest(rest, cap, AllValues(Follow(sheet, next, cap)));
    }
  }

  /** From an open-ended range, on a grid without blank rows, the pages together are all the rows
      from the first one on exactly when the cap is below 1000 or at most 1000 rows remain after
      the first page: at the default cap of 1000 the second page is the last. */
  lemma OpenPages(sheet: seq<Row>, a: A1, cap: nat)
    requires Parsed(a) && cap >= 1 && OpenRows(a) && NoBlankRows(Through(sheet, a))
    ensures AllValues(Follow(sheet, a, cap)) == Rest(sheet, a) <==> cap < 1000 || |Rest(sheet, a)| <= cap + 1000
  {
    hide NextA1, Through, Rest, NoBlankRows, Follow, AllValues;
    FirstPage(sheet, a, cap);
    var rest, next := Rest(sheet, a), NextA1(a, cap);
    if Least(cap + 1, |rest|) > cap {
      ClosedPages(sheet, next, cap);
      PrefixThenRest(rest, cap, AllValues(Follow(sheet, next, cap)));
    }
  }

  /** At the default cap there are grids that following `next_range` does not finish. */
  lemma DefaultCapStopsShort()
    ensures var a := A1(Some("Sheet1"), None, None, None, None, None);
            var sheet := seq(2001, _ => ["x"]);
            AllValues(Follow(sheet, a, 1000)) != Rest(sheet, a)
  {
    var a := A1(Some("Sheet1"), None, None, None, None, None);
    var sheet: seq<Row> := seq(2001, _ => ["x"]);
    forall row | row in Through(sheet, a)
      ensures !Blank(row)
    {
      assert row == ["x"];
      assert "x" in row;
    }
    hide Through, Follow, AllValues, NoBlankRows;
    assert NoBlankRows(Through(sheet, a)) by {
      NoneBlank(Through(sheet, a));
    }
    OpenPages(sheet, a, 1000);
    RestFromTop(sheet, a);
  }

  lemma NoneBlank(rows: seq<Row>)
    requires forall row | row in rows :: !Blank(row)
    ensures NoBlankRows(rows)
  {
  }

  lemma RestFromTop(sheet: seq<Row>, a: A1)
    requires Parsed(a) && a.startRow.None?
    ensures |Rest(sheet, a)| == |sheet|
  {
  }

  // -- from the text of a range ------------------------------------------------------

  datatype Tab = Tab(title: string, rows: seq<Row>)

  datatype ReadError = BadRange(error: RangeError) | NoSheets | NoSuchSheet

  datatype Resolved = Resolved(a: A1, tab: Tab)

  function FindTab(book: seq<Tab>, title: string): (tab: Option<Tab>)
    ensures tab.Some? ==> tab.value in book && tab.value.title == title
  {
    if book == [] then None else if book[0].title == title then Some(book[0]) else FindTab(book[1..], title)
  }

  /** `_Sheets.resolve`: a range without a title is on the first sheet. */
  function Resolve(book: seq<Tab>, text: string): (r: Result<Resolved, ReadError>)
    ensures r.Ok? ==> Parsed(r.value.a) && r.value.a.sheet == Some(r.value.tab.title)
  {
    match ParseRange(text)
    case Err(e) => Err(BadRange(e))
    case Ok(parsed) =>
      if parsed.sheet.None? && book == [] then Err(NoSheets)
      else
        var a := if parsed.sheet.None? then parsed.(sheet := Some(book[0].title)) else parsed;
        match FindTab(book, a.sheet.value)
        case None => Err(NoSuchSheet)
        case Some(tab) => Ok(Resolved(a, tab))
  }

  /** The text of `next_range` resolves, in the same workbook, to the same sheet from the next row
      on, whatever the sheet is called and whether or not the first request named it. */
  lemma NextResolves(book: seq<Tab>, text: string, cap: nat, hasHeader: Option<bool>)
    requires cap >= 1 && Resolve(book, text).Ok?
    ensures var from := Resolve(book, text).value;
            var page := ReadPage(from.tab.rows, from.a, cap, hasHeader);
            page.Ok? && (page.value.next.Some? ==>
              Resolve(book, page.value.next.value) == Ok(Resolved(NextA1(from.a, cap), from.tab)))
  {
    hide ReadPage, ParseRange, NextA1, Through, Asked, Truncate, ShapeOf;
    var from := Resolve(book, text).value;
    PageComputes(from.tab.rows, from.a, cap, hasHeader);
  }
}
