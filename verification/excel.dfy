/** The spreadsheet application as the backend sees it through xlwings, the
    error responses shared by both endpoints, and the resolution of a request's
    optional workbook and sheet names to one concrete worksheet
    (`get_active_workbook`, `get_worksheet` and the lookups in app.py). */
module Excel {
  import opened Wrappers
  import opened Json

  /** A cell or range address exactly as a request spells it. */
  type Address = Json

  /** The contents of one worksheet: what was last written at each address. */
  type Sheet = map<Address, Json>

  /** A workbook: its sheets by name and the name of its active sheet, if any. */
  datatype Book = Book(sheets: map<string, Sheet>, activeSheet: Option<string>)

  /** The running Excel application: open workbooks by name and the active one.
      An active name that is not among the open books reads as "no active book". */
  datatype App = App(books: map<string, Book>, activeBook: Option<string>)

  /** A resolved worksheet: the workbook's name and the sheet's name. */
  datatype Target = Target(book: string, sheet: string)

  /** The error responses of the two endpoints. */
  datatype ApiError =
    | NoOperations                          // body missing or without `operations`
    | NoExcelApp                            // no Excel application running
    | WorkbookNotFound(name: Json)          // a named workbook is not open
    | NoActiveWorkbook                      // no name given and no active workbook
    | SheetNotFound(sheet: Json, book: string) // a named sheet is not in the workbook
    | NoActiveSheet                         // no name given and no active sheet
    | NoData                                // the worksheet holds no data frame
    | Internal                              // an exception reached the outer handler

  /** The HTTP status each error is answered with. */
  function Status(e: ApiError): (code: int)
    ensures code in {400, 404, 500, 503}
    ensures code == 400 <==> e.NoOperations?
    ensures code == 503 <==> e.NoExcelApp?
    ensures code == 500 <==> e.Internal?
    ensures code == 404 <==> e.WorkbookNotFound? || e.NoActiveWorkbook? || e.SheetNotFound? || e.NoActiveSheet? || e.NoData?
  {
    match e
    case NoOperations => 400
    case NoExcelApp => 503
    case Internal => 500
    case _ => 404
  }

  /** How a workbook or sheet name appears inside an error message. Only the
      renderings Python's `str` gives strings, `None` and booleans are modelled. */
  function Show(j: Json): string {
    match j
    case JStr(s) => s
    case JNull => "None"
    case JBool(b) => if b then "True" else "False"
    case _ => ""
  }

  /** The `error` text of each error response. The text of `Internal` is the
      exception's own message, which is not modelled. */
  function Message(e: ApiError): string {
    match e
    case NoOperations => "No operations provided"
    case NoExcelApp => "No Excel application running"
    case WorkbookNotFound(name) => "Workbook '" + Show(name) + "' not found"
    case NoActiveWorkbook => "No active workbook found"
    case SheetNotFound(sheet, book) => "Sheet '" + Show(sheet) + "' not found in workbook '" + book + "'"
    case NoActiveSheet => "No active worksheet found"
    case NoData => "No data found in worksheet"
    case Internal => ""
  }

  /** The messages a client can recognise: a missing named workbook or sheet is
      reported with its name quoted after a fixed prefix. */
  lemma MessagesNameTheMissingTarget(name: string, book: string)
    ensures Occurs("Workbook '" + name + "' not found", Message(WorkbookNotFound(JStr(name))))
    ensures Occurs("Sheet '" + name + "' not found", Message(SheetNotFound(JStr(name), book)))
  {
    var w := "Workbook '" + name + "' not found";
    assert OccursAt(w, Message(WorkbookNotFound(JStr(name))), 0);
    var s := "Sheet '" + name + "' not found";
    var full := Message(SheetNotFound(JStr(name), book));
    assert full == s + (" in workbook '" + book + "'");
    assert full[0..|s|] == s;
    assert OccursAt(s, full, 0);
  }

  // ---------------------------------------------------------------------------
  // Target resolution

  /** `get_active_workbook`: the active workbook of a running application. */
  function ActiveWorkbook(app: Option<App>): (r: Option<string>)
    ensures r.Some? <==> app.Some? && app.value.activeBook.Some? && app.value.activeBook.value in app.value.books
    ensures r.Some? ==> r == app.value.activeBook
  {
    match app
    case None => None
    case Some(a) =>
      match a.activeBook
      case Some(n) => if n in a.books then Some(n) else None
      case None => None
  }

  /** `excel_app.books[name]`: a lookup that succeeds only for the name of an open book. */
  function FindBook(app: App, name: Json): (r: Option<string>)
    ensures r.Some? <==> name.JStr? && name.s in app.books
    ensures r.Some? ==> name == JStr(r.value)
  {
    if name.JStr? && name.s in app.books then Some(name.s) else None
  }

  /** `get_worksheet`: the named sheet when a truthy name is given, the active
      sheet otherwise; `None` when the chosen one does not exist. */
  function GetWorksheet(book: Book, sheetName: Json): (r: Option<string>)
    ensures r.Some? ==> r.value in book.sheets
    ensures Truthy(sheetName) ==> (r.Some? <==> sheetName.JStr? && sheetName.s in book.sheets)
    ensures Truthy(sheetName) && r.Some? ==> sheetName == JStr(r.value)
    ensures !Truthy(sheetName) ==> (r.Some? <==> book.activeSheet.Some? && book.activeSheet.value in book.sheets)
    ensures !Truthy(sheetName) && r.Some? ==> r == book.activeSheet
  {
    if Truthy(sheetName) then
      if sheetName.JStr? && sheetName.s in book.sheets then Some(sheetName.s) else None
    else
      match book.activeSheet
      case Some(n) => if n in book.sheets then Some(n) else None
      case None => None
  }

  /** Whether `t` exists in `app` and is exactly what the request asks for: the
      named workbook if a workbook name is truthy, else the active one; then the
      named sheet if a sheet name is truthy, else that workbook's active sheet. */
  ghost predicate Designates(app: App, bookName: Json, sheetName: Json, t: Target) {
    && t.book in app.books
    && (if Truthy(bookName) then bookName == JStr(t.book) else app.activeBook == Some(t.book))
    && t.sheet in app.books[t.book].sheets
    && (if Truthy(sheetName) then sheetName == JStr(t.sheet) else app.books[t.book].activeSheet == Some(t.sheet))
  }

  /** A resolved target names a sheet that exists. */
  ghost predicate Exists(app: App, t: Target) {
    t.book in app.books && t.sheet in app.books[t.book].sheets
  }

  /** The workbook/sheet resolution both endpoints perform (app.py lines
      88-109 and 160-181), with their errors in the order they are checked. */
  function ResolveTarget(app: Option<App>, bookName: Json, sheetName: Json): (r: Result<Target, ApiError>)
    ensures r.Ok? ==> app.Some? && Exists(app.value, r.value)
    ensures r.Err? ==> || r.error == NoExcelApp
                       || r.error == WorkbookNotFound(bookName)
                       || r.error == NoActiveWorkbook
                       || (r.error.SheetNotFound? && r.error.sheet == sheetName)
                       || r.error == NoActiveSheet
  {
    if app.None? then Err(NoExcelApp)
    else
      var a := app.value;
      var book :=
        if Truthy(bookName) then FindBook(a, bookName) else ActiveWorkbook(app);
      if book.None? then
        Err(if Truthy(bookName) then WorkbookNotFound(bookName) else NoActiveWorkbook)
      else
        var sheet := GetWorksheet(a.books[book.value], sheetName);
        if sheet.None? then
          Err(if Truthy(sheetName) then SheetNotFound(sheetName, book.value) else NoActiveSheet)
        else
          Ok(Target(book.value, sheet.value))
  }

  /** At most one worksheet answers a request. */
  lemma DesignatedTargetIsUnique(app: App, bookName: Json, sheetName: Json, t1: Target, t2: Target)
    requires Designates(app, bookName, sheetName, t1) && Designates(app, bookName, sheetName, t2)
    ensures t1 == t2
  {
  }

  /** Resolution succeeds exactly with the worksheet the request designates. */
  lemma ResolveFindsDesignated(app: App, bookName: Json, sheetName: Json, t: Target)
    ensures ResolveTarget(Some(app), bookName, sheetName) == Ok(t) <==> Designates(app, bookName, sheetName, t)
  {
    var r := ResolveTarget(Some(app), bookName, sheetName);
    if Designates(app, bookName, sheetName, t) {
      assert r.Ok?;
      DesignatedTargetIsUnique(app, bookName, sheetName, r.value, t);
    }
  }

  /** Whether the request's workbook choice names an open workbook. */
  predicate BookChosen(app: App, bookName: Json, book: string) {
    && book in app.books
    && (if Truthy(bookName) then bookName == JStr(book) else app.activeBook == Some(book))
  }

  /** The error precedence of resolution, first part: no application (503),
      then a missing named workbook, then a missing active workbook (404).
      Each error is reported exactly when the checks before it passed and its
      own check fails. */
  lemma WorkbookErrorPrecedence(app: Option<App>, bookName: Json, sheetName: Json)
    ensures ResolveTarget(app, bookName, sheetName) == Err(NoExcelApp) <==> app.None?
    ensures ResolveTarget(app, bookName, sheetName) == Err(WorkbookNotFound(bookName))
        <==> app.Some? && Truthy(bookName) && !(bookName.JStr? && bookName.s in app.value.books)
    ensures ResolveTarget(app, bookName, sheetName) == Err(NoActiveWorkbook)
        <==> app.Some? && !Truthy(bookName)
             && !(app.value.activeBook.Some? && app.value.activeBook.value in app.value.books)
  {
  }

  /** The error precedence of resolution, second part: once a workbook is
      chosen, a missing named sheet, then a missing active sheet (404). */
  lemma SheetErrorPrecedence(app: App, bookName: Json, sheetName: Json, book: string)
    requires BookChosen(app, bookName, book)
    ensures ResolveTarget(Some(app), bookName, sheetName) == Err(SheetNotFound(sheetName, book))
        <==> Truthy(sheetName) && !(sheetName.JStr? && sheetName.s in app.books[book].sheets)
    ensures ResolveTarget(Some(app), bookName, sheetName) == Err(NoActiveSheet)
        <==> !Truthy(sheetName)
             && !(app.books[book].activeSheet.Some? && app.books[book].activeSheet.value in app.books[book].sheets)
  {
  }

  // ---------------------------------------------------------------------------
  // Writing a worksheet back into the application

  /** The application with the worksheet `t` replaced by `s`. */
  function SetSheet(app: App, t: Target, s: Sheet): (r: App)
    requires Exists(app, t)
    ensures Exists(r, t) && r.books[t.book].sheets[t.sheet] == s
    ensures r.activeBook == app.activeBook && r.books.Keys == app.books.Keys
    ensures forall b | b in app.books ::
              r.books[b].activeSheet == app.books[b].activeSheet
              && r.books[b].sheets.Keys == app.books[b].sheets.Keys
    ensures forall b, n | b in app.books && n in app.books[b].sheets && Target(b, n) != t ::
              r.books[b].sheets[n] == app.books[b].sheets[n]
  {
    var book := app.books[t.book];
    app.(books := app.books[t.book := book.(sheets := book.sheets[t.sheet := s])])
  }
}
