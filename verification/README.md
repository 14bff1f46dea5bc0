# Excel AI task-pane backend: write and read handlers

This project is a Dafny model of the local Flask backend that connects the
Excel task pane to a running Excel application. The backend reaches Excel
through xlwings. The model covers three parts of `app.py`:

- **`write_excel_data`** (`POST /api/write-excel`). It validates the request
  body and resolves the target workbook and worksheet. It then runs every
  operation of the batch on that worksheet: `write_cell`, `write_range`, or
  anything else, which is an unknown operation. It appends one result per
  operation and never stops at a failing operation.
- **Target resolution** (`get_active_workbook`, `get_worksheet` and the name
  lookups). Both handlers use the same decision procedure: the named workbook,
  else the active one; then the named sheet, else the active one. Each missing
  piece has its own error and status.
- **The cell mapping of `get_excel_data`** (`GET /api/excel-data`). For a frame
  of at most 100 records, and when `include_cell_mapping` lower-cases to
  `"true"`, each value is keyed by its spreadsheet cell. Record `i` and column
  `j` go to column `start_col + j` and row `start_row + i + 1`.

Modules:

- `wrappers.dfy` (`Wrappers`): `Option` and `Result`.
- `json.dfy` (`Json`): decoded JSON values, Python truthiness, `dict.get`,
  and substring search.
- `excel.dfy` (`Excel`): the application, workbooks and sheets; the error
  responses with their statuses and messages; target resolution and its
  precedence.
- `write.dfy` (`WriteExcel`): one operation, the batch loop, the handler, and
  the properties of all three.
- `read.dfy` (`ExcelData`): the `include_cell_mapping` flag, the cell mapping,
  and the read handler.

External behaviour becomes parameters of the model:

- **Excel itself** is a value `Option<App>`. `None` means no Excel
  application is running.
- **A raising xlwings write** is an oracle `raises(position, sheet, address,
  value)`, where `position` is the operation's index in the batch, so an
  identical write can fail once and succeed when repeated. A write that
  raises leaves the sheet unchanged.
- **What xlwings and pandas read from a sheet** is a function
  `Sheet -> Option<UsedRange>`.

A worksheet is a map from the address a request gives to the value last
written there.

Two behaviours of `write_excel_data` are worth stating on their own:

- Any operation type other than `write_cell` and `write_range`, a missing
  one included, gets the "Unknown operation type" result.
- A failing operation never stops the batch. After resolution, the only
  500s come from the `operations` value or its elements. `None`, a number or
  a boolean cannot be iterated; a non-empty dict or string yields strings,
  and `.get` on the first one raises. Either way the handler ends before any
  write. In a list, an element that is not a dict makes `operation.get`
  raise, and the writes made before that element stay in the workbook.

## Model

| member | source | states |
|---|---|---|
| `Excel.Status` | app.py:88-222 | The missing-operations error is 400, no Excel application is 503, an escaped exception is 500, and exactly the workbook, sheet and no-data errors are 404 |
| `Excel.MessagesNameTheMissingTarget` | app.py:165-181 | The error text for a missing named workbook contains `Workbook '<name>' not found`, and the text for a missing named sheet contains `Sheet '<name>' not found` |
| `Excel.ActiveWorkbook` | app.py:40-49 | An active workbook is found exactly when an application runs and its active book is open, and the one found is that active book |
| `Excel.FindBook` | app.py:165-169 | A lookup by name succeeds exactly for a string equal to the key of an open workbook, and returns the workbook with that key |
| `Excel.GetWorksheet` | app.py:51-61 | A truthy sheet name picks exactly that sheet, when it exists. Otherwise the active sheet is picked, when it exists. Any sheet returned exists in the workbook |
| `Excel.ResolveTarget` | app.py:160-181 | A resolved target always exists in a running application. Every failure is one of the five resolution errors, and the failure carries the request's own names |
| `Excel.ResolveFindsDesignated` | app.py:164-181 | Resolution returns target `t` if and only if `t` is the worksheet the request designates: the named workbook (else the active one), then the named sheet (else the active one) |
| `Excel.WorkbookErrorPrecedence` | app.py:160-173 | No application (503) is reported exactly when none runs. A missing named workbook, then a missing active workbook (404), is reported exactly when the checks before it pass and its own check fails |
| `Excel.SheetErrorPrecedence` | app.py:175-181 | Once a workbook is chosen, a missing named sheet, then a missing active sheet (404), is reported exactly when its own check fails |
| `Excel.SetSheet` | app.py:196-211 | Writing into the resolved worksheet replaces only that worksheet. The other sheets, the other workbooks and the active choices stay the same |
| `WriteExcel.WriteCell` | app.py:188-200 | A falsy address is refused with no write. Otherwise the result is a success exactly when the write does not raise, and then only that address changes, to `value` (possibly null). A raising write is reported as failed |
| `WriteExcel.WriteRange` | app.py:202-214 | A falsy range or falsy values, an empty list included, are refused with no write. Otherwise the result is a success exactly when the write does not raise, and then only that range's entry changes. A raising write is reported as failed |
| `WriteExcel.Apply` | app.py:186-217 | For one dict operation, the result matches its type and fields. A success means the write did not raise and only the written address changed, to the given value. Every error leaves the sheet unchanged |
| `WriteExcel.RunBatch` | app.py:183-217 | Every element that produced a result is a dict. Without a crash there is one result per operation. A crash happens at a non-dict element, right after the results so far |
| `WriteExcel.ResultsDescribeOperations` | app.py:183-217 | Each result is the one the operation at the same position calls for |
| `WriteExcel.RunOperations` | app.py:185-186 | A list is iterated. An empty dict or an empty string gives no iterations. A non-empty dict or string, `None`, a number or a boolean raises before any write |
| `WriteExcel.RunOnTarget` | app.py:160-219 | A resolution error is returned with the application unchanged. Otherwise the operations run on the resolved sheet and the sheet they leave is written back into the application. The response is the loop's results, or 500 when the loop stopped at a non-dict element |
| `WriteExcel.HandleWrite` | app.py:148-222 | A body without operations gets an error and no write. Every error other than an escaped exception leaves the application unchanged. A results response only follows a body that has operations |
| `WriteExcel.BatchIsJournaled` | app.py:196-214 | Replaying the writes reported in the results, in order, on the original sheet gives exactly the sheet the loop leaves |
| `WriteExcel.RunBatchSplits` | app.py:185-217 | Running `xs + ys` is running `xs`, then running `ys` on the sheet `xs` left, unless `xs` stopped on a non-dict element. No operation's outcome ends the loop early |
| `WriteExcel.ResultsArePositional` | app.py:183-219 | Result `k` is operation `k` applied to the sheet left by the first `k` operations. The operations after it all still run, on the sheet it left |
| `WriteExcel.FailedOperationIsSkipped` | app.py:192-217 | A failing operation yields its error. The rest of the batch then runs on the unchanged sheet |
| `WriteExcel.RepeatedWriteMaySucceed` | app.py:188-200 | The same `write_cell` operation twice in a batch can fail the first time and succeed the second, as a transient failure of the write does |
| `WriteExcel.MissingOperationsIsRejected` | app.py:152-154 | A null or empty body, or a dict without `operations`, gets 400 "No operations provided", and the application is unchanged |
| `WriteExcel.NonDictBodyIsAnswered` | app.py:152-156 | A body that is not a dict writes nothing. It gets 500 exactly when it is truthy and is a number, a boolean, a list holding "operations" or a string containing it; otherwise it gets 400 "No operations provided" |
| `WriteExcel.WriteErrorPrecedence` | app.py:156-181 | For a body with operations, each resolution error is the response exactly when resolution reports it, and then nothing is written |
| `WriteExcel.WellFormedBatchAnswersEveryOperation` | app.py:183-219 | Take a list of dict operations and a resolvable target. The response is 200 with one result per operation, in order, each the result its operation calls for. The workbook afterwards is the original with the reported writes replayed on the target sheet |
| `WriteExcel.SplitAtResult` | app.py:183-217 | If position `k` produced a result, the first `k` operations ran to their end with `k` results, and the rest ran on the sheet they left |
| `WriteExcel.StopsAtFirstNonDict` | app.py:185-186 | At the first non-dict element the loop stops with exactly the results and the sheet of the operations before it |
| `WriteExcel.NonDictElementKeepsEarlierWrites` | app.py:185-222 | A non-dict element in the operation list makes the response 500, but the writes of the operations before it stay in the workbook |
| `WriteExcel.UnknownTypeIsReported` | app.py:216-217 | A type other than `write_cell` or `write_range`, including a missing one, gives an error containing "Unknown operation type" and leaves the sheet unchanged |
| `ExcelData.Lower` | app.py:86 | Lower-casing keeps the length and lower-cases each character in place |
| `ExcelData.IncludeMappingSpellings` | app.py:86 | The flag is on when the argument is absent. Otherwise it is on exactly when the argument spells "true" in any mix of upper and lower case |
| `ExcelData.MapColumnsContents` | app.py:137-139 | The inner loop adds exactly the first `j` cells of row `start_row + i + 1`, each holding its frame value, and keeps every other entry |
| `ExcelData.MapRecordsContents` | app.py:136-139 | After `n` records the mapping holds exactly the cells of the block they cover, each holding the frame value at that position |
| `ExcelData.CellMappingLaysOutFrame` | app.py:130-141 | Entry `(i, j)` is keyed by column `start_col + j` and row `start_row + i + 1` and holds the frame value there. Every key is such a cell, and the record and column can be recovered from its address |
| `ExcelData.CellMappingSize` | app.py:136-139 | No two frame positions share an address, so the mapping has rows × columns entries |
| `ExcelData.ReadTarget` | app.py:111-143 | The read is "No data found" exactly when the used range, its frame, or the frame's contents are missing. Otherwise the snapshot names the resolved workbook and sheet |
| `ExcelData.HandleRead` | app.py:79-146 | A resolution error (503 or one of the 404s) is the response, unchanged. "No data found" only follows a successful resolution. A successful read is of the worksheet the request designates |
| `ExcelData.ReadErrorPrecedence` | app.py:88-121 | Each resolution error is the read's response exactly when resolution reports it, as on the write path. "No data found" is the response exactly when resolution succeeds and the worksheet has no used range, no frame or an empty frame |
| `ExcelData.MappingPresence` | app.py:130-141 | A successful read names the resolved workbook and sheet, returns the frame's records as its data, and reports the frame's shape. It carries a cell mapping exactly when the flag is on and there are at most 100 records, and the mapping then lays out the frame from the used range's corner |

## Left out

- HTTP transport is not modelled: Flask routing, CORS, JSON encoding and
  decoding, and `request.get_json()` failures. A request body is a decoded
  `Json` value, and a response is a datatype value with a status.
- xlwings is not modelled. The application, workbooks and sheets are plain
  values. A write is an oracle that says whether it raises, and a read is a
  function from a sheet to its used range.
- The sheet is not modelled as a grid. A range write stores the values under
  the range's address as one entry. Address parsing, and spreading a range's
  values over its cells, are library behaviour.
- `Excel.FindBook` and `Excel.GetWorksheet` do not model non-string names.
  xlwings looks up a truthy name that is not a string by position, or raises.
  The model treats such a name as not found.
- `Excel.FindBook` and `Excel.GetWorksheet` match names exactly, while
  Excel's own collections match workbook and sheet names case-insensitively
  (`sheets['sheet1']` finds "Sheet1"). A name that differs from an open
  workbook's or sheet's name only in letter case is found by the program and
  reported as not found by the model. Every member that resolves a target
  inherits this: `Excel.ResolveTarget`, `Excel.ResolveFindsDesignated`
  (through `Designates`), `Excel.WorkbookErrorPrecedence`,
  `Excel.SheetErrorPrecedence`, `WriteExcel.RunOnTarget`,
  `WriteExcel.HandleWrite`, `WriteExcel.WriteErrorPrecedence`,
  `ExcelData.HandleRead` and `ExcelData.ReadErrorPrecedence`. Excel's case folding for
  non-ASCII names is not specified by the program.
- `Excel.Show`, `Excel.Message` and `WriteExcel.OpResult.ErrorText` model
  only the fixed parts of the message texts, not all of Python's `str` output.
  They leave out `str()` of numbers, lists and dicts, the formatted value in
  a success text, and exception messages.
- `RobustJSONEncoder` (app.py:14-29) is not modelled. It converts numpy,
  Decimal and datetime values, which is floating-point and library-dependent.
- `ExcelData.Lower` lower-cases only ASCII letters. No other character
  lower-cases to a letter of "true", so the flag's value is the same as with
  Python's full `str.lower`.
- `ExcelData.ReadTarget` does not model a pandas conversion that raises. That
  case would reach the outer handler and be answered 500. The reader only
  returns a frame or no frame.
- pandas is not modelled. A frame is a header plus records. `to_dict('records')`
  is kept as the list of records as read, unpadded; only the cell mapping
  reads a short record's missing columns as null, where pandas gives NaN.
  Indexing a row by a duplicated column label is not modelled.
- `int_to_col_letter(column) + str(row)` is represented by the pair
  `Cell(column, row)`. Column letters followed by decimal digits determine the
  pair, and the pair determines them, so the model keeps the pair instead of
  the text.
- An active workbook or sheet name that is not among the open ones reads as
  "no active workbook" or "no active sheet". xlwings cannot produce that state.
- `health_check` (app.py:63-77) is outside the two modelled handlers. It has
  its own answers (200 "healthy" with the workbook name, 503 or 404
  "unhealthy", 500 on an exception), which are not modelled.
- The browser task pane is not part of this model: JSON extraction from AI
  text, the write executor, context-fetch retry with backoff, and health
  polling.
