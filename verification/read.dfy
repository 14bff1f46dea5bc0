/** The `/api/excel-data` handler (`get_excel_data`, app.py lines 79-146):
    target resolution, the no-data checks, and the cell mapping it adds for
    small frames, which tells the caller at which spreadsheet address each
    value of the frame sits. */
module ExcelData {
  import opened Wrappers
  import opened Json
  import opened Excel

  /** A spreadsheet cell by column number and row number. The response spells
      it as `int_to_col_letter(column) + str(row)`: column letters followed by
      decimal digits, a rendering that determines the pair and is determined
      by it, so the pair stands for the address text. */
  datatype Cell = Cell(column: int, row: int)

  /** The data frame pandas builds from a used range with `header=1`: the
      header row becomes the column labels and the rows below it the records. */
  datatype Frame = Frame(columns: seq<Json>, rows: seq<seq<Json>>) {

    /** `df.empty`: no records or no columns. */
    predicate Empty() {
      |rows| == 0 || |columns| == 0
    }

    /** The value in record `i`, column `j`; a record shorter than the header
        is padded with nulls, as pandas pads it with NaN. */
    function Value(i: nat, j: nat): Json
      requires i < |rows|
    {
      if j < |rows[i]| then rows[i][j] else JNull
    }
  }

  /** `worksheet.used_range`: the row and column of its top-left cell and the
      frame read from it (`None` when pandas yields no frame). */
  datatype UsedRange = UsedRange(row: int, column: int, frame: Option<Frame>)

  /** What xlwings and pandas read from a worksheet; `None` is a missing used range. */
  type RangeReader = Sheet -> Option<UsedRange>

  /** The response of a successful read. */
  datatype Snapshot = Snapshot(
    book: string,
    sheet: string,
    records: seq<seq<Json>>,
    shape: (nat, nat),
    mapping: Option<map<Cell, Json>>)

  /** A query-string argument as a JSON value: an absent argument reads as `None`. */
  function FromArg(a: Option<string>): Json {
    match a
    case Some(s) => JStr(s)
    case None => JNull
  }

  // ---------------------------------------------------------------------------
  // The include_cell_mapping flag

  /** ASCII lower-casing of one character. */
  function LowerChar(c: char): char {
    if 'A' <= c <= 'Z' then (c as int + 32) as char else c
  }

  /** `s.lower()` on the characters a flag value can usefully contain. */
  function Lower(s: string): (r: string)
    ensures |r| == |s|
    ensures forall k | 0 <= k < |s| :: r[k] == LowerChar(s[k])
  {
    if |s| == 0 then "" else [LowerChar(s[0])] + Lower(s[1..])
  }

  /** `request.args.get('include_cell_mapping', 'true').lower() == 'true'`. */
  predicate IncludeMapping(arg: Option<string>) {
    Lower(arg.GetOr("true")) == "true"
  }

  /** The flag is on when the argument is absent, and otherwise exactly when it
      spells "true" in any mix of upper and lower case. */
  lemma IncludeMappingSpellings(arg: Option<string>)
    ensures arg.None? ==> IncludeMapping(arg)
    ensures arg.Some? ==>
              (IncludeMapping(arg) <==>
                 && |arg.value| == 4
                 && arg.value[0] in {'t', 'T'}
                 && arg.value[1] in {'r', 'R'}
                 && arg.value[2] in {'u', 'U'}
                 && arg.value[3] in {'e', 'E'})
  {
    if arg.Some? {
      var s := arg.value;
      if |s| == 4 {
        assert Lower(s) == [LowerChar(s[0]), LowerChar(s[1]), LowerChar(s[2]), LowerChar(s[3])];
      }
    }
  }

  // ---------------------------------------------------------------------------
  // The cell mapping

  /** The cell holding record `i`, column `j` of a frame whose used range
      starts at (`startRow`, `startCol`): the header occupies `startRow`, so
      record `i` sits on row `startRow + i + 1`. */
  function CellOf(startRow: int, startCol: int, i: int, j: int): Cell {
    Cell(startCol + j, startRow + i + 1)
  }

  /** Whether `c` lies in the block covered by the first `n` records and the
      first `w` columns. */
  predicate InBlock(startRow: int, startCol: int, n: int, w: int, c: Cell) {
    startRow + 1 <= c.row < startRow + 1 + n && startCol <= c.column < startCol + w
  }

  /** The inner loop: enter columns `0 .. j-1` of record `i` into `acc`. */
  function MapColumns(acc: map<Cell, Json>, f: Frame, startRow: int, startCol: int, i: nat, j: nat): map<Cell, Json>
    requires i < |f.rows| && j <= |f.columns|
    decreases j
  {
    if j == 0 then acc
    else MapColumns(acc, f, startRow, startCol, i, j - 1)[CellOf(startRow, startCol, i, j - 1) := f.Value(i, j - 1)]
  }

  /** The outer loop: enter records `0 .. n-1`, each with all its columns. */
  function MapRecords(f: Frame, startRow: int, startCol: int, n: nat): map<Cell, Json>
    requires n <= |f.rows|
    decreases n
  {
    if n == 0 then map[]
    else MapColumns(MapRecords(f, startRow, startCol, n - 1), f, startRow, startCol, n - 1, |f.columns|)
  }

  /** The mapping built by the nested loops of app.py lines 136-139. */
  function CellMapping(f: Frame, startRow: int, startCol: int): map<Cell, Json> {
    MapRecords(f, startRow, startCol, |f.rows|)
  }

  /** The inner loop adds exactly the first `j` cells of row `i`, each with
      its frame value, and keeps every other entry. */
  lemma {:induction false} MapColumnsContents(
    acc: map<Cell, Json>, f: Frame, startRow: int, startCol: int, i: nat, j: nat, c: Cell)
    requires i < |f.rows| && j <= |f.columns|
    ensures var m := MapColumns(acc, f, startRow, startCol, i, j);
            var added := c.row == startRow + i + 1 && startCol <= c.column < startCol + j;
            && (c in m <==> c in acc || added)
            && (added ==> m[c] == f.Value(i, c.column - startCol))
            && (c in acc && !added ==> m[c] == acc[c])
    decreases j
  {
    if j > 0 {
      MapColumnsContents(acc, f, startRow, startCol, i, j - 1, c);
    }
  }

  /** After `n` records the mapping holds exactly the cells of the first `n`
      records, each with its frame value. */
  lemma {:induction false} MapRecordsContents(f: Frame, startRow: int, startCol: int, n: nat, c: Cell)
    requires n <= |f.rows|
    ensures var m := MapRecords(f, startRow, startCol, n);
            && (c in m <==> InBlock(startRow, startCol, n, |f.columns|, c))
            && (c in m ==> m[c] == f.Value(c.row - startRow - 1, c.column - startCol))
    decreases n
  {
    if n > 0 {
      MapRecordsContents(f, startRow, startCol, n - 1, c);
      MapColumnsContents(MapRecords(f, startRow, startCol, n - 1), f, startRow, startCol, n - 1, |f.columns|, c);
    }
  }

  /** The cell mapping is the frame laid out on the sheet: entry (i, j) is keyed
      by column `startCol + j` and row `startRow + i + 1` and holds the frame's
      value there, and every key is such a cell, so inverting the address
      recovers the record and column it came from. */
  lemma CellMappingLaysOutFrame(f: Frame, startRow: int, startCol: int)
    ensures var m := CellMapping(f, startRow, startCol);
            && (forall i, j | 0 <= i < |f.rows| && 0 <= j < |f.columns| ::
                  CellOf(startRow, startCol, i, j) in m && m[CellOf(startRow, startCol, i, j)] == f.Value(i, j))
            && (forall c | c in m ::
                  && 0 <= c.row - startRow - 1 < |f.rows|
                  && 0 <= c.column - startCol < |f.columns|
                  && CellOf(startRow, startCol, c.row - startRow - 1, c.column - startCol) == c
                  && m[c] == f.Value(c.row - startRow - 1, c.column - startCol))
  {
    var m := CellMapping(f, startRow, startCol);
    forall i, j | 0 <= i < |f.rows| && 0 <= j < |f.columns|
      ensures CellOf(startRow, startCol, i, j) in m && m[CellOf(startRow, startCol, i, j)] == f.Value(i, j)
    {
      MapRecordsContents(f, startRow, startCol, |f.rows|, CellOf(startRow, startCol, i, j));
    }
    forall c | c in m
      ensures 0 <= c.row - startRow - 1 < |f.rows| && 0 <= c.column - startCol < |f.columns|
      ensures m[c] == f.Value(c.row - startRow - 1, c.column - startCol)
    {
      MapRecordsContents(f, startRow, startCol, |f.rows|, c);
    }
  }

  /** No two frame positions share an address, so the mapping has one entry per
      value of the frame: rows times columns. */
  lemma CellMappingSize(f: Frame, startRow: int, startCol: int)
    ensures |CellMapping(f, startRow, startCol)| == |f.rows| * |f.columns|
  {
    MapRecordsSize(f, startRow, startCol, |f.rows|);
  }

  lemma {:induction false} MapRecordsSize(f: Frame, startRow: int, startCol: int, n: nat)
    requires n <= |f.rows|
    ensures |MapRecords(f, startRow, startCol, n)| == n * |f.columns|
    decreases n
  {
    if n > 0 {
      var acc := MapRecords(f, startRow, startCol, n - 1);
      MapRecordsSize(f, startRow, startCol, n - 1);
      forall c | c in acc ensures c.row < startRow + n {
        MapRecordsContents(f, startRow, startCol, n - 1, c);
      }
      MapColumnsSize(acc, f, startRow, startCol, n - 1, |f.columns|);
      assert (n - 1) * |f.columns| + |f.columns| == n * |f.columns|;
    }
  }

  /** The inner loop adds `j` new entries when row `i` is not yet in `acc`. */
  lemma {:induction false} MapColumnsSize(
    acc: map<Cell, Json>, f: Frame, startRow: int, startCol: int, i: nat, j: nat)
    requires i < |f.rows| && j <= |f.columns|
    requires forall c | c in acc :: c.row < startRow + i + 1
    ensures |MapColumns(acc, f, startRow, startCol, i, j)| == |acc| + j
    decreases j
  {
    if j > 0 {
      var prev := MapColumns(acc, f, startRow, startCol, i, j - 1);
      MapColumnsSize(acc, f, startRow, startCol, i, j - 1);
      var c := CellOf(startRow, startCol, i, j - 1);
      MapColumnsContents(acc, f, startRow, startCol, i, j - 1, c);
      assert c !in prev;
    }
  }

  // ---------------------------------------------------------------------------
  // The handler

  /** Whether a read answers with a cell mapping: the flag is on and the frame
      has at most 100 records. */
  predicate MappingWanted(includeArg: Option<string>, f: Frame) {
    IncludeMapping(includeArg) && |f.rows| <= 100
  }

  /** A missing used range, a missing frame or an empty frame. */
  predicate NoUsedData(used: Option<UsedRange>) {
    used.None? || used.value.frame.None? || used.value.frame.value.Empty()
  }

  /** `get_excel_data` after resolution: a missing used range, a missing frame
      or an empty one is "No data found in worksheet" (404); otherwise the
      records, the shape and, when wanted, the cell mapping. */
  function ReadTarget(app: App, t: Target, includeArg: Option<string>, read: RangeReader): (r: Result<Snapshot, ApiError>)
    requires Exists(app, t)
    ensures r.Err? ==> r.error == NoData
    ensures r.Err? <==> NoUsedData(read(app.books[t.book].sheets[t.sheet]))
    ensures r.Ok? ==> r.value.book == t.book && r.value.sheet == t.sheet
  {
    match read(app.books[t.book].sheets[t.sheet])
    case None => Err(NoData)
    case Some(used) =>
      match used.frame
      case None => Err(NoData)
      case Some(f) =>
        if f.Empty() then Err(NoData)
        else
          var mapping := if MappingWanted(includeArg, f) then Some(CellMapping(f, used.row, used.column)) else None;
          Ok(Snapshot(t.book, t.sheet, f.rows, (|f.rows|, |f.columns|), mapping))
  }

  /** `get_excel_data`: the workbook and sheet query arguments, the
      include_cell_mapping argument, the running application and the reader. */
  function HandleRead(
    bookArg: Option<string>, sheetArg: Option<string>, includeArg: Option<string>,
    app: Option<App>, read: RangeReader): (r: Result<Snapshot, ApiError>)
    ensures ResolveTarget(app, FromArg(bookArg), FromArg(sheetArg)).Err? ==>
              r == Err(ResolveTarget(app, FromArg(bookArg), FromArg(sheetArg)).error)
    ensures r == Err(NoData) ==> ResolveTarget(app, FromArg(bookArg), FromArg(sheetArg)).Ok?
    ensures r.Err? && r.error != NoData ==> ResolveTarget(app, FromArg(bookArg), FromArg(sheetArg)) == Err(r.error)
    ensures r.Ok? ==> app.Some? && Designates(app.value, FromArg(bookArg), FromArg(sheetArg), Target(r.value.book, r.value.sheet))
  {
    match ResolveTarget(app, FromArg(bookArg), FromArg(sheetArg))
    case Err(e) => Err(e)
    case Ok(t) =>
      ResolveFindsDesignated(app.value, FromArg(bookArg), FromArg(sheetArg), t);
      ReadTarget(app.value, t, includeArg, read)
  }

  /** The read path answers the same resolution errors as the write path, in
      the same order: each is the response exactly when resolution reports
      it. "No data found" is answered exactly when resolution succeeds and the
      resolved worksheet has no used range, no frame or an empty frame. */
  lemma ReadErrorPrecedence(
    bookArg: Option<string>, sheetArg: Option<string>, includeArg: Option<string>,
    app: Option<App>, read: RangeReader, e: ApiError)
    requires e != NoData
    ensures HandleRead(bookArg, sheetArg, includeArg, app, read) == Err(e)
        <==> ResolveTarget(app, FromArg(bookArg), FromArg(sheetArg)) == Err(e)
    ensures var rt := ResolveTarget(app, FromArg(bookArg), FromArg(sheetArg));
            (HandleRead(bookArg, sheetArg, includeArg, app, read) == Err(NoData) <==>
               rt.Ok? && NoUsedData(read(app.value.books[rt.value.book].sheets[rt.value.sheet])))
  {
  }

  /** A successful read carries a cell mapping exactly when the flag is on and
      the frame has at most 100 records; the mapping then lays the frame out
      from the used range's corner. */
  lemma MappingPresence(
    bookArg: Option<string>, sheetArg: Option<string>, includeArg: Option<string>,
    app: App, read: RangeReader, t: Target)
    requires ResolveTarget(Some(app), FromArg(bookArg), FromArg(sheetArg)) == Ok(t)
    requires read(app.books[t.book].sheets[t.sheet]).Some?
    requires read(app.books[t.book].sheets[t.sheet]).value.frame.Some?
    requires !read(app.books[t.book].sheets[t.sheet]).value.frame.value.Empty()
    ensures var used := read(app.books[t.book].sheets[t.sheet]).value;
            var f := used.frame.value;
            var r := HandleRead(bookArg, sheetArg, includeArg, Some(app), read);
            && r.Ok?
            && r.value.book == t.book && r.value.sheet == t.sheet
            && r.value.records == f.rows
            && r.value.shape == (|f.rows|, |f.columns|)
            && (r.value.mapping.Some? <==> IncludeMapping(includeArg) && |f.rows| <= 100)
            && (r.value.mapping.Some? ==>
                  r.value.mapping.value == CellMapping(f, used.row, used.column))
  {
  }
}
