/** The `/api/write-excel` handler (`write_excel_data`, app.py lines 148-222):
    request validation, target resolution, and the best-effort loop that applies
    each operation of a batch to the resolved worksheet and records one result
    per operation. */
module WriteExcel {
  import opened Wrappers
  import opened Json
  import opened Excel

  /** Whether the write made by the operation at the given position of the
      batch, assigning a value at an address of the given sheet, raises inside
      xlwings (a malformed address, a protected sheet, a transient COM
      failure). The position lets an identical write fail once and succeed
      when repeated. A write that raises leaves the sheet as it was. */
  type WriteOracle = (nat, Sheet, Address, Json) -> bool

  /** The entry appended to `results` for one operation. The two success
      variants carry a `success` key in the response, every other one an `error` key. */
  datatype OpResult =
    | WroteCell(cell: Address, value: Json)
    | WroteRange(range: Address, values: Json)
    | CellAddressRequired
    | RangeAndValuesRequired
    | CellWriteFailed(cell: Address)
    | RangeWriteFailed(range: Address)
    | UnknownType(opType: Json)
  {
    predicate IsSuccess() {
      WroteCell? || WroteRange?
    }

    /** The fixed leading part of the `error` text; the address and the
        exception message that follow it are not modelled. */
    function ErrorText(): Option<string> {
      match this
      case WroteCell(_, _) => None
      case WroteRange(_, _) => None
      case CellAddressRequired => Some("Cell address required for write_cell operation")
      case RangeAndValuesRequired => Some("Range and values required for write_range operation")
      case CellWriteFailed(_) => Some("Failed to write to cell ")
      case RangeWriteFailed(_) => Some("Failed to write to range ")
      case UnknownType(_) => Some("Unknown operation type: ")
    }
  }

  /** The sheet after the write a result reports, if it reports one. */
  function Commit(sheet: Sheet, r: OpResult): Sheet {
    match r
    case WroteCell(c, v) => sheet[c := v]
    case WroteRange(a, vs) => sheet[a := vs]
    case _ => sheet
  }

  /** `after` is `before` with `at` now holding `v` and every other address
      holding what it held before. */
  ghost predicate OnlyChanged(before: Sheet, after: Sheet, at: Address, v: Json) {
    && at in after && after[at] == v
    && (forall a :: a != at ==> (a in after <==> a in before))
    && (forall a | a in before && a != at :: after[a] == before[a])
  }

  /** The result `write_excel_data` gives for one operation, whatever the sheet and
      the oracle: `write_cell` needs a truthy `cell` and then either writes
      `value` (which may be null) there or reports the failure; `write_range`
      needs a truthy `range` and truthy `values` and then writes or reports;
      any other `type`, a missing one included, is an unknown operation. */
  ghost predicate Describes(op: Json, r: OpResult) {
    op.JObj? &&
    var ty := Get(op.fields, "type");
    if ty == JStr("write_cell") then
      var cell := Get(op.fields, "cell");
      if !Truthy(cell) then r == CellAddressRequired
      else r == WroteCell(cell, Get(op.fields, "value")) || r == CellWriteFailed(cell)
    else if ty == JStr("write_range") then
      var range := Get(op.fields, "range");
      var values := Get(op.fields, "values");
      if !Truthy(range) || !Truthy(values) then r == RangeAndValuesRequired
      else r == WroteRange(range, values) || r == RangeWriteFailed(range)
    else
      r == UnknownType(ty)
  }

  /** The outcome of one operation: its result and the sheet afterwards. */
  datatype Step = Step(result: OpResult, sheet: Sheet)

  /** A `write_cell` operation (app.py lines 188-200): a falsy address is
      refused, otherwise `value` is assigned at the address unless that raises. */
  function WriteCell(at: nat, cell: Address, value: Json, sheet: Sheet, raises: WriteOracle): (s: Step)
    ensures !Truthy(cell) ==> s.result == CellAddressRequired
    ensures Truthy(cell) ==> (s.result == WroteCell(cell, value) <==> !raises(at, sheet, cell, value))
    ensures Truthy(cell) && raises(at, sheet, cell, value) ==> s.result == CellWriteFailed(cell)
    ensures s.result.WroteCell? ==> OnlyChanged(sheet, s.sheet, cell, value)
    ensures !s.result.WroteCell? ==> s.sheet == sheet
  {
    if !Truthy(cell) then Step(CellAddressRequired, sheet)
    else if raises(at, sheet, cell, value) then Step(CellWriteFailed(cell), sheet)
    else Step(WroteCell(cell, value), sheet[cell := value])
  }

  /** A `write_range` operation (app.py lines 202-214): a falsy address or
      falsy values (an empty list included) are refused, otherwise the values
      are assigned at the address unless that raises. */
  function WriteRange(at: nat, range: Address, values: Json, sheet: Sheet, raises: WriteOracle): (s: Step)
    ensures !Truthy(range) || !Truthy(values) ==> s.result == RangeAndValuesRequired
    ensures Truthy(range) && Truthy(values) ==> (s.result == WroteRange(range, values) <==> !raises(at, sheet, range, values))
    ensures Truthy(range) && Truthy(values) && raises(at, sheet, range, values) ==> s.result == RangeWriteFailed(range)
    ensures s.result.WroteRange? ==> OnlyChanged(sheet, s.sheet, range, values)
    ensures !s.result.WroteRange? ==> s.sheet == sheet
  {
    if !Truthy(range) || !Truthy(values) then Step(RangeAndValuesRequired, sheet)
    else if raises(at, sheet, range, values) then Step(RangeWriteFailed(range), sheet)
    else Step(WroteRange(range, values), sheet[range := values])
  }

  /** One iteration of the loop body (app.py lines 186-217) for the dict
      operation at position `at` of the batch. */
  function Apply(op: map<string, Json>, at: nat, sheet: Sheet, raises: WriteOracle): (s: Step)
    ensures Describes(JObj(op), s.result)
    ensures s.result.IsSuccess() <==> s.result.ErrorText().None?
    ensures s.result.WroteCell? ==> !raises(at, sheet, s.result.cell, s.result.value)
    ensures s.result.WroteCell? ==> OnlyChanged(sheet, s.sheet, s.result.cell, s.result.value)
    ensures s.result.WroteRange? ==> !raises(at, sheet, s.result.range, s.result.values)
    ensures s.result.WroteRange? ==> OnlyChanged(sheet, s.sheet, s.result.range, s.result.values)
    ensures s.result.CellWriteFailed? ==> raises(at, sheet, s.result.cell, Get(op, "value"))
    ensures s.result.RangeWriteFailed? ==> raises(at, sheet, s.result.range, Get(op, "values"))
    ensures !s.result.IsSuccess() ==> s.sheet == sheet
  {
    var ty := Get(op, "type");
    if ty == JStr("write_cell") then WriteCell(at, Get(op, "cell"), Get(op, "value"), sheet, raises)
    else if ty == JStr("write_range") then WriteRange(at, Get(op, "range"), Get(op, "values"), sheet, raises)
    else Step(UnknownType(ty), sheet)
  }

  /** The state of the loop: the results so far, the sheet, and whether an
      element that is not a dict made `operation.get` raise. */
  datatype Batch = Batch(results: seq<OpResult>, sheet: Sheet, crashed: bool)

  /** The loop over a list of operations. A failing operation appends its
      error and the loop goes on; only an element that is not a dict stops it,
      by raising out of the handler with the writes before it kept. `at` is
      the position of `ops[0]` in the whole batch. */
  function RunBatch(ops: seq<Json>, at: nat, sheet: Sheet, raises: WriteOracle): (b: Batch)
    ensures |b.results| <= |ops|
    ensures !b.crashed ==> |b.results| == |ops|
    ensures b.crashed ==> |b.results| < |ops| && !ops[|b.results|].JObj?
    ensures forall k | 0 <= k < |b.results| :: ops[k].JObj?
  {
    if |ops| == 0 then Batch([], sheet, false)
    else if !ops[0].JObj? then Batch([], sheet, true)
    else
      var s := Apply(ops[0].fields, at, sheet, raises);
      var rest := RunBatch(ops[1..], at + 1, s.sheet, raises);
      Batch([s.result] + rest.results, rest.sheet, rest.crashed)
  }

  /** Every result describes the operation at the same position. */
  lemma {:induction false} ResultsDescribeOperations(ops: seq<Json>, at: nat, sheet: Sheet, raises: WriteOracle)
    ensures var b := RunBatch(ops, at, sheet, raises);
            forall k | 0 <= k < |b.results| :: Describes(ops[k], b.results[k])
    decreases |ops|
  {
    if |ops| > 0 && ops[0].JObj? {
      var s := Apply(ops[0].fields, at, sheet, raises);
      ResultsDescribeOperations(ops[1..], at + 1, s.sheet, raises);
      var b := RunBatch(ops, at, sheet, raises);
      var rest := RunBatch(ops[1..], at + 1, s.sheet, raises);
      forall k | 0 <= k < |b.results| ensures Describes(ops[k], b.results[k]) {
        if k > 0 {
          assert b.results[k] == rest.results[k - 1];
          assert ops[k] == ops[1..][k - 1];
        }
      }
    }
  }

  /** `for operation in operations` over whatever value `operations` holds. A
      list is iterated; an empty dict or string gives no iterations; a
      non-empty dict or string yields strings, which have no `get`; `None`, a
      number or a boolean is not iterable. */
  function RunOperations(ops: Json, sheet: Sheet, raises: WriteOracle): (b: Batch)
    ensures ops.JArr? ==> b == RunBatch(ops.items, 0, sheet, raises)
    ensures !ops.JArr? ==> b.results == [] && b.sheet == sheet
    ensures !ops.JArr? ==> (b.crashed <==> Truthy(ops) || ops.JNull? || ops.JNum? || ops.JBool?)
  {
    match ops
    case JArr(xs) => RunBatch(xs, 0, sheet, raises)
    case JObj(m) => Batch([], sheet, m != map[])
    case JStr(s) => Batch([], sheet, s != "")
    case _ => Batch([], sheet, true)
  }

  // ---------------------------------------------------------------------------
  // The handler

  /** The response body: the per-operation results, or an error. */
  datatype Response = Results(results: seq<OpResult>) | Error(error: ApiError)

  function StatusOf(r: Response): int {
    match r
    case Results(_) => 200
    case Error(e) => Status(e)
  }

  /** The response together with the Excel application afterwards. */
  datatype Exchange = Exchange(response: Response, app: Option<App>)

  /** Whether the body passes the first check: a truthy dict with an `operations` key. */
  predicate HasOperations(body: Json) {
    Truthy(body) && body.JObj? && "operations" in body.fields
  }

  /** The part of the handler after validation (app.py lines 160-219): an error
      from resolution is answered unchanged; otherwise the operations run on the
      resolved sheet, which is written back into the application. */
  function RunOnTarget(ops: Json, target: Result<Target, ApiError>, app: Option<App>, raises: WriteOracle): (x: Exchange)
    requires target.Ok? ==> app.Some? && Exists(app.value, target.value)
    ensures target.Err? ==> x == Exchange(Error(target.error), app)
    ensures target.Ok? ==>
              var b := RunOperations(ops, app.value.books[target.value.book].sheets[target.value.sheet], raises);
              && x.app == Some(SetSheet(app.value, target.value, b.sheet))
              && (x.response.Results? <==> !b.crashed)
              && (x.response.Results? ==> x.response.results == b.results)
              && (x.response.Error? ==> x.response.error == Internal)
    ensures x.app.Some? <==> app.Some?
  {
    match target
    case Err(e) => Exchange(Error(e), app)
    case Ok(t) =>
      var b := RunOperations(ops, app.value.books[t.book].sheets[t.sheet], raises);
      var after := Some(SetSheet(app.value, t, b.sheet));
      if b.crashed then Exchange(Error(Internal), after) else Exchange(Results(b.results), after)
  }

  /** `write_excel_data`. `body` is `request.get_json()`, `app` is what
      `xw.apps.active` gives (`None` when no Excel is running). */
  function HandleWrite(body: Json, app: Option<App>, raises: WriteOracle): (x: Exchange)
    ensures !HasOperations(body) ==> x.app == app && x.response.Error?
    ensures x.response.Error? && x.response.error != Internal ==> x.app == app
    ensures x.response.Results? ==> HasOperations(body)
    ensures x.app.Some? <==> app.Some?
  {
    if !Truthy(body) then Exchange(Error(NoOperations), app)
    else
      match body
      case JObj(m) =>
        if "operations" !in m then Exchange(Error(NoOperations), app)
        else
          RunOnTarget(m["operations"], ResolveTarget(app, Get(m, "workbook"), Get(m, "sheet")), app, raises)
      // `'operations' in data` is membership for a list, substring search for a
      // string; when it holds, `data['operations']` raises.
      case JArr(xs) => Exchange(Error(if JStr("operations") in xs then Internal else NoOperations), app)
      case JStr(s) => Exchange(Error(if Occurs("operations", s) then Internal else NoOperations), app)
      // `in` on a number or a boolean raises.
      case _ => Exchange(Error(Internal), app)
  }

  // ---------------------------------------------------------------------------
  // Properties of the batch loop

  /** The sheet obtained by replaying, in order, the writes a result list reports. */
  function Replay(rs: seq<OpResult>, sheet: Sheet): Sheet
    decreases |rs|
  {
    if |rs| == 0 then sheet else Replay(rs[1..], Commit(sheet, rs[0]))
  }

  /** The results are a faithful journal: replaying the successful writes they
      report onto the original sheet gives exactly the sheet the loop left. */
  lemma {:induction false} BatchIsJournaled(ops: seq<Json>, at: nat, sheet: Sheet, raises: WriteOracle)
    ensures RunBatch(ops, at, sheet, raises).sheet == Replay(RunBatch(ops, at, sheet, raises).results, sheet)
    decreases |ops|
  {
    if |ops| > 0 && ops[0].JObj? {
      var s := Apply(ops[0].fields, at, sheet, raises);
      assert s.sheet == Commit(sheet, s.result);
      BatchIsJournaled(ops[1..], at + 1, s.sheet, raises);
      var b := RunBatch(ops, at, sheet, raises);
      assert b.results[1..] == RunBatch(ops[1..], at + 1, s.sheet, raises).results;
    }
  }

  /** Running `xs + ys` from position `at` is running `xs` and then, unless
      it stopped on a non-dict element, running `ys` on the sheet it left. */
  ghost predicate SplitsAt(xs: seq<Json>, ys: seq<Json>, at: nat, sheet: Sheet, raises: WriteOracle) {
    var a := RunBatch(xs, at, sheet, raises);
    var b := RunBatch(ys, at + |xs|, a.sheet, raises);
    RunBatch(xs + ys, at, sheet, raises)
      == if a.crashed then a else Batch(a.results + b.results, b.sheet, b.crashed)
  }

  /** Running `xs + ys` is running `xs` and then, unless it stopped on a
      non-dict element, running `ys` on the sheet it left: no operation's
      outcome ends the loop early. */
  lemma {:induction false} RunBatchSplits(xs: seq<Json>, ys: seq<Json>, at: nat, sheet: Sheet, raises: WriteOracle)
    ensures SplitsAt(xs, ys, at, sheet, raises)
    decreases |xs|
  {
    if |xs| == 0 {
      assert xs + ys == ys;
    } else if xs[0].JObj? {
      var s := Apply(xs[0].fields, at, sheet, raises);
      RunBatchSplits(xs[1..], ys, at + 1, s.sheet, raises);
      SplitsCons(xs, ys, at, sheet, raises);
    } else {
      assert (xs + ys)[0] == xs[0];
    }
  }

  /** The inductive step of `RunBatchSplits`: splitting after a leading dict
      operation follows from splitting the rest. */
  lemma SplitsCons(xs: seq<Json>, ys: seq<Json>, at: nat, sheet: Sheet, raises: WriteOracle)
    requires |xs| > 0 && xs[0].JObj?
    requires SplitsAt(xs[1..], ys, at + 1, Apply(xs[0].fields, at, sheet, raises).sheet, raises)
    ensures SplitsAt(xs, ys, at, sheet, raises)
  {
    var s := Apply(xs[0].fields, at, sheet, raises);
    var inner := RunBatch(xs[1..], at + 1, s.sheet, raises);
    var whole := RunBatch(xs[1..] + ys, at + 1, s.sheet, raises);
    RunBatchCons(xs, at, sheet, raises);
    AppendCons(xs, ys, at, sheet, raises);
    assert at + 1 + |xs[1..]| == at + |xs|;
    PrependResult(s.result, inner, whole, RunBatch(ys, at + |xs|, inner.sheet, raises));
  }

  /** Prepending one result keeps the shape of a split run. */
  lemma PrependResult(r: OpResult, inner: Batch, whole: Batch, b: Batch)
    requires whole == if inner.crashed then inner else Batch(inner.results + b.results, b.sheet, b.crashed)
    ensures var a := Batch([r] + inner.results, inner.sheet, inner.crashed);
            Batch([r] + whole.results, whole.sheet, whole.crashed)
              == if a.crashed then a else Batch(a.results + b.results, b.sheet, b.crashed)
  {
    assert [r] + (inner.results + b.results) == ([r] + inner.results) + b.results;
  }

  /** One turn of the loop on `xs + ys` when `xs` starts with a dict operation. */
  lemma AppendCons(xs: seq<Json>, ys: seq<Json>, at: nat, sheet: Sheet, raises: WriteOracle)
    requires |xs| > 0 && xs[0].JObj?
    ensures var s := Apply(xs[0].fields, at, sheet, raises);
            var whole := RunBatch(xs[1..] + ys, at + 1, s.sheet, raises);
            RunBatch(xs + ys, at, sheet, raises) == Batch([s.result] + whole.results, whole.sheet, whole.crashed)
  {
    assert (xs + ys)[0] == xs[0];
    assert (xs + ys)[1..] == xs[1..] + ys;
    RunBatchCons(xs + ys, at, sheet, raises);
  }

  /** Result `k` is operation `k` applied to the sheet the first `k`
      operations left, and the operations after it are all still attempted, on
      the sheet it left, whether it succeeded or failed. */
  lemma {:induction false} ResultsArePositional(ops: seq<Json>, at: nat, sheet: Sheet, raises: WriteOracle, k: nat)
    requires k < |RunBatch(ops, at, sheet, raises).results|
    ensures var before := RunBatch(ops[..k], at, sheet, raises);
            var step := Apply(ops[k].fields, at + k, before.sheet, raises);
            var b := RunBatch(ops, at, sheet, raises);
            && !before.crashed
            && b.results[..k] == before.results
            && b.results[k] == step.result
            && b.results[k + 1..] == RunBatch(ops[k + 1..], at + k + 1, step.sheet, raises).results
            && b.sheet == RunBatch(ops[k + 1..], at + k + 1, step.sheet, raises).sheet
  {
    var before := RunBatch(ops[..k], at, sheet, raises);
    SplitAtResult(ops, at, sheet, raises, k);
    var step := Apply(ops[k].fields, at + k, before.sheet, raises);
    var tail := RunBatch(ops[k + 1..], at + k + 1, step.sheet, raises);
    assert ops[k..][0] == ops[k];
    assert ops[k..][1..] == ops[k + 1..];
    RunBatchCons(ops[k..], at + k, before.sheet, raises);
    assert RunBatch(ops, at, sheet, raises).results == before.results + ([step.result] + tail.results);
  }

  /** Cutting the operations before a position that produced a result: the
      prefix ran to its end, and the rest ran on the sheet it left. */
  lemma SplitAtResult(ops: seq<Json>, at: nat, sheet: Sheet, raises: WriteOracle, k: nat)
    requires k < |RunBatch(ops, at, sheet, raises).results|
    ensures var before := RunBatch(ops[..k], at, sheet, raises);
            var rest := RunBatch(ops[k..], at + k, before.sheet, raises);
            && !before.crashed
            && |before.results| == k
            && RunBatch(ops, at, sheet, raises) == Batch(before.results + rest.results, rest.sheet, rest.crashed)
  {
    assert ops[..k] + ops[k..] == ops;
    RunBatchSplits(ops[..k], ops[k..], at, sheet, raises);
  }

  /** One turn of the loop on a dict operation (an unfolding of `RunBatch`). */
  lemma RunBatchCons(ops: seq<Json>, at: nat, sheet: Sheet, raises: WriteOracle)
    requires |ops| > 0 && ops[0].JObj?
    ensures var s := Apply(ops[0].fields, at, sheet, raises);
            var rest := RunBatch(ops[1..], at + 1, s.sheet, raises);
            RunBatch(ops, at, sheet, raises) == Batch([s.result] + rest.results, rest.sheet, rest.crashed)
  {
  }

  /** A failing operation changes nothing and the rest of the batch runs on the
      sheet as it was before it. */
  lemma FailedOperationIsSkipped(ops: seq<Json>, at: nat, sheet: Sheet, raises: WriteOracle)
    requires |ops| > 0 && ops[0].JObj?
    requires !Apply(ops[0].fields, at, sheet, raises).result.IsSuccess()
    ensures var b := RunBatch(ops, at, sheet, raises);
            && b.results[0] == Apply(ops[0].fields, at, sheet, raises).result
            && b.results[1..] == RunBatch(ops[1..], at + 1, sheet, raises).results
            && b.sheet == RunBatch(ops[1..], at + 1, sheet, raises).sheet
  {
    var b := RunBatch(ops, at, sheet, raises);
    assert b.results[1..] == RunBatch(ops[1..], at + 1, sheet, raises).results;
  }

  /** The outcome of a write may differ between two positions of a batch: the
      same `write_cell` operation twice in a row can fail the first time and
      succeed when repeated, as a transient COM failure does. */
  lemma RepeatedWriteMaySucceed(op: map<string, Json>, sheet: Sheet)
    requires Get(op, "type") == JStr("write_cell") && Truthy(Get(op, "cell"))
    ensures var raises := (i: nat, s: Sheet, a: Address, v: Json) => i == 0;
            var c := Get(op, "cell");
            RunBatch([JObj(op), JObj(op)], 0, sheet, raises).results
              == [CellWriteFailed(c), WroteCell(c, Get(op, "value"))]
  {
    var raises := (i: nat, s: Sheet, a: Address, v: Json) => i == 0;
    var ops := [JObj(op), JObj(op)];
    RunBatchCons(ops, 0, sheet, raises);
    RunBatchCons(ops[1..], 1, sheet, raises);
  }

  // ---------------------------------------------------------------------------
  // Properties of the handler

  /** A null or empty body, or one without `operations`, gets 400 "No
      operations provided" and nothing is written. */
  lemma MissingOperationsIsRejected(body: Json, app: Option<App>, raises: WriteOracle)
    requires !Truthy(body) || (body.JObj? && "operations" !in body.fields)
    ensures HandleWrite(body, app, raises) == Exchange(Error(NoOperations), app)
    ensures StatusOf(HandleWrite(body, app, raises).response) == 400
    ensures Message(HandleWrite(body, app, raises).response.error) == "No operations provided"
  {
  }

  /** A truthy body that is not a dict: `'operations' in data` is membership
      for a list and substring search for a string, and when it holds
      `data['operations']` raises (500); `in` on a number or a boolean raises
      (500); otherwise the answer is 400. Nothing is written either way. */
  lemma NonDictBodyIsAnswered(body: Json, app: Option<App>, raises: WriteOracle)
    requires !body.JObj?
    ensures var x := HandleWrite(body, app, raises);
            && x.app == app
            && (x.response == Error(Internal) || x.response == Error(NoOperations))
            && (x.response == Error(Internal) <==>
                  Truthy(body)
                  && (|| body.JNum? || body.JBool?
                      || (body.JArr? && JStr("operations") in body.items)
                      || (body.JStr? && Occurs("operations", body.s))))
  {
  }

  /** For a body that has `operations`, each of the five resolution errors
      (ordered as in `WorkbookErrorPrecedence` and `SheetErrorPrecedence`) is answered exactly when
      resolution reports it, and then no operation runs. */
  lemma WriteErrorPrecedence(body: Json, app: Option<App>, raises: WriteOracle, e: ApiError)
    requires HasOperations(body)
    requires e != Internal
    ensures HandleWrite(body, app, raises).response == Error(e)
        <==> ResolveTarget(app, Get(body.fields, "workbook"), Get(body.fields, "sheet")) == Err(e)
    ensures HandleWrite(body, app, raises).response == Error(e) ==> HandleWrite(body, app, raises).app == app
  {
  }

  /** A well-formed batch (a list of dicts) on a resolvable target is answered
      200 with one result per operation, in order, each the one its operation
      calls for; the target sheet is the original with the reported writes
      replayed, and every other sheet and workbook is untouched. */
  lemma WellFormedBatchAnswersEveryOperation(
    body: Json, app: App, raises: WriteOracle, t: Target)
    requires HasOperations(body)
    requires body.fields["operations"].JArr?
    requires forall k | 0 <= k < |body.fields["operations"].items| :: body.fields["operations"].items[k].JObj?
    requires ResolveTarget(Some(app), Get(body.fields, "workbook"), Get(body.fields, "sheet")) == Ok(t)
    ensures var ops := body.fields["operations"].items;
            var x := HandleWrite(body, Some(app), raises);
            && x.response.Results?
            && StatusOf(x.response) == 200
            && |x.response.results| == |ops|
            && (forall k | 0 <= k < |ops| :: Describes(ops[k], x.response.results[k]))
            && x.app == Some(SetSheet(app, t, Replay(x.response.results, app.books[t.book].sheets[t.sheet])))
  {
    var ops := body.fields["operations"].items;
    BatchIsJournaled(ops, 0, app.books[t.book].sheets[t.sheet], raises);
    ResultsDescribeOperations(ops, 0, app.books[t.book].sheets[t.sheet], raises);
    HandleWriteRunsOnTarget(body, app, raises, t);
  }

  /** The loop stops at the first non-dict element, with the results and the
      sheet the operations before it produced. */
  lemma {:induction false} StopsAtFirstNonDict(ops: seq<Json>, at: nat, sheet: Sheet, raises: WriteOracle, k: nat)
    requires k < |ops| && !ops[k].JObj?
    requires forall j | 0 <= j < k :: ops[j].JObj?
    ensures var before := RunBatch(ops[..k], at, sheet, raises);
            RunBatch(ops, at, sheet, raises) == Batch(before.results, before.sheet, true)
  {
    assert ops[..k] + ops[k..] == ops;
    assert ops[k..][0] == ops[k];
    RunBatchSplits(ops[..k], ops[k..], at, sheet, raises);
  }

  /** A body with operations on a resolvable target runs them on that target. */
  lemma HandleWriteRunsOnTarget(body: Json, app: App, raises: WriteOracle, t: Target)
    requires HasOperations(body)
    requires ResolveTarget(Some(app), Get(body.fields, "workbook"), Get(body.fields, "sheet")) == Ok(t)
    ensures var b := RunOperations(body.fields["operations"], app.books[t.book].sheets[t.sheet], raises);
            var after := Some(SetSheet(app, t, b.sheet));
            HandleWrite(body, Some(app), raises)
              == if b.crashed then Exchange(Error(Internal), after) else Exchange(Results(b.results), after)
  {
  }

  /** A list holding a non-dict element is answered 500, but the writes of the
      operations before that element stay in the workbook. */
  lemma NonDictElementKeepsEarlierWrites(
    body: Json, app: App, raises: WriteOracle, t: Target, k: nat)
    requires HasOperations(body)
    requires body.fields["operations"].JArr?
    requires k < |body.fields["operations"].items|
    requires !body.fields["operations"].items[k].JObj?
    requires forall j | 0 <= j < k :: body.fields["operations"].items[j].JObj?
    requires ResolveTarget(Some(app), Get(body.fields, "workbook"), Get(body.fields, "sheet")) == Ok(t)
    ensures var ops := body.fields["operations"].items;
            var sheet := app.books[t.book].sheets[t.sheet];
            var x := HandleWrite(body, Some(app), raises);
            && x.response == Error(Internal)
            && StatusOf(x.response) == 500
            && x.app == Some(SetSheet(app, t, RunBatch(ops[..k], 0, sheet, raises).sheet))
  {
    StopsAtFirstNonDict(body.fields["operations"].items, 0, app.books[t.book].sheets[t.sheet], raises, k);
    HandleWriteRunsOnTarget(body, app, raises, t);
  }

  /** An unknown or missing `type` yields an error result whose text contains
      "Unknown operation type", and the sheet is left as it was. */
  lemma UnknownTypeIsReported(op: map<string, Json>, at: nat, sheet: Sheet, raises: WriteOracle)
    requires Get(op, "type") != JStr("write_cell") && Get(op, "type") != JStr("write_range")
    ensures var s := Apply(op, at, sheet, raises);
            && s.result == UnknownType(Get(op, "type"))
            && s.result.ErrorText().Some?
            && Occurs("Unknown operation type", s.result.ErrorText().value)
            && s.sheet == sheet
  {
    assert OccursAt("Unknown operation type", "Unknown operation type: ", 0);
  }
}
