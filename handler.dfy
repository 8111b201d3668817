/**
 * The `/forecast` request handler: upload dispatch, cleaning, the row-count
 * gate, forecasting and assembly, with every failure turned into an error
 * response. `Respond` states the handler's answer as a function of the
 * request; `HandleForecast` computes it by updating the table step by step,
 * in the handler's own order.
 */
module Handler {
  import opened Wrappers
  import opened Floats
  import opened Calendar
  import opened Headers
  import opened Upload
  import opened Errors
  import opened Cleaning
  import opened Assembly

  /**
   * The uploaded file: its name, and the table each reader would produce from
   * its bytes (or the message of the exception the reader raises).
   */
  datatype UploadedFile = UploadedFile(filename: string, asCsv: Result<RawTable, string>, asExcel: Result<RawTable, string>)

  /** A JSON body with status 200, or an `error` body with the failure's status. */
  datatype Response = Served(body: Body) | Refused(failure: Failure)

  function StatusCode(r: Response): (code: int)
    ensures code == 200 <==> r.Served?
    ensures code == 400 <==> r.Refused? && !r.failure.Raised?
    ensures code == 500 <==> r.Refused? && r.failure.Raised?
  {
    match r
    case Served(_) => 200
    case Refused(f) => Status(f)
  }

  /** The minimum number of cleaned rows a forecast is attempted on. */
  const MinRows: nat := 3

  /** Lines 24-29: the reader the suffix selects, or the rejection of the name. */
  function Read(file: UploadedFile): (r: Result<RawTable, Failure>)
    ensures Dispatch(file.filename) == Unsupported <==> r == Err(UnsupportedFormat)
    ensures Dispatch(file.filename) == Csv ==>
              r == (if file.asCsv.Ok? then Ok(file.asCsv.value) else Err(Raised(file.asCsv.error)))
    ensures Dispatch(file.filename) == Excel ==>
              r == (if file.asExcel.Ok? then Ok(file.asExcel.value) else Err(Raised(file.asExcel.error)))
  {
    match Dispatch(file.filename)
    case Csv => if file.asCsv.Ok? then Ok(file.asCsv.value) else Err(Raised(file.asCsv.error))
    case Excel => if file.asExcel.Ok? then Ok(file.asExcel.value) else Err(Raised(file.asExcel.error))
    case Unsupported => Err(UnsupportedFormat)
  }

  /**
   * Line 20: the upload is falsy when the form has no file field, and also
   * when its file has an empty name (an uploaded file object is true only
   * when it has a file name).
   */
  predicate NoUpload(upload: Option<UploadedFile>) {
    upload.None? || upload.value.filename == ""
  }

  /**
   * The handler's answer to an upload (lines 18-123). The frame combined on
   * line 108 has the normalised labels (with `Net_Cashflow` added by line 55
   * when absent), so its labels repeat exactly when the normalised ones do.
   */
  function Respond(upload: Option<UploadedFile>, parseNumber: string -> Num, engine: Engine): (r: Response)
    ensures r.Served? ==> r.body.rowsReceived >= MinRows
  {
    if NoUpload(upload) then Refused(NoFile)
    else
      match Read(upload.value)
      case Err(f) => Refused(f)
      case Ok(table) =>
        match Tidy(table, parseNumber)
        case Err(f) => Refused(f)
        case Ok(os) =>
          if |os| < MinRows then Refused(NotEnoughRows)
          else
            match Assemble(os, Normalize(table.headers), engine)
            case Err(f) => Refused(f)
            case Ok(body) => Served(body)
  }

  /**
   * A request without a file, or with a file name none of the readers
   * accepts, is answered with status 400 before anything is read: the
   * answer does not depend on the file's contents.
   */
  lemma RejectedBeforeReading(upload: Option<UploadedFile>, parseNumber: string -> Num, engine: Engine)
    requires upload.None? || Dispatch(upload.value.filename) == Unsupported
    ensures StatusCode(Respond(upload, parseNumber, engine)) == 400
    ensures NoUpload(upload) ==> Respond(upload, parseNumber, engine) == Refused(NoFile)
    ensures !NoUpload(upload) ==> Respond(upload, parseNumber, engine) == Refused(UnsupportedFormat)
    ensures !NoUpload(upload) ==> forall csv, excel :: Respond(Some(upload.value.(asCsv := csv, asExcel := excel)), parseNumber, engine)
                                                  == Refused(UnsupportedFormat)
  {
    if !NoUpload(upload) {
      forall csv, excel
        ensures Respond(Some(upload.value.(asCsv := csv, asExcel := excel)), parseNumber, engine) == Refused(UnsupportedFormat)
      {
        assert Read(upload.value.(asCsv := csv, asExcel := excel)) == Err(UnsupportedFormat);
      }
    }
  }

  /**
   * When fewer than three rows survive cleaning, the answer is the 400
   * "not enough rows" error whatever the forecasting engine: no forecast is
   * attempted.
   */
  lemma GateBeforeForecast(file: UploadedFile, parseNumber: string -> Num, engine: Engine, other: Engine)
    requires Read(file).Ok? && Tidy(Read(file).value, parseNumber).Ok?
    requires |Tidy(Read(file).value, parseNumber).value| < MinRows
    ensures Respond(Some(file), parseNumber, engine) == Refused(NotEnoughRows)
    ensures Respond(Some(file), parseNumber, engine) == Respond(Some(file), parseNumber, other)
    ensures StatusCode(Respond(Some(file), parseNumber, engine)) == 400
  {
  }

  /**
   * A table without a `Month` column (after normalisation) fails with the
   * `KeyError` message and status 500, whatever its rows.
   */
  lemma MissingMonthColumn(file: UploadedFile, parseNumber: string -> Num, engine: Engine)
    requires Read(file).Ok?
    requires "Month" !in Normalize(Read(file).value.headers)
    ensures Respond(Some(file), parseNumber, engine) == Refused(Raised("'Month'"))
    ensures StatusCode(Respond(Some(file), parseNumber, engine)) == 500
  {
    MonthKeyError();
  }

  /**
   * A successful answer comes from an upload that was read and cleaned into a
   * history of at least three rows, on which both series could be forecast;
   * it reports that row count and the combined records of the two forecasts
   * (laid out as `CombineLayout` states: history rows, then the twelve
   * horizon months).
   */
  lemma ServedBody(upload: Option<UploadedFile>, parseNumber: string -> Num, engine: Engine)
    requires Respond(upload, parseNumber, engine).Served?
    ensures upload.Some? && Read(upload.value).Ok? && Tidy(Read(upload.value).value, parseNumber).Ok?
    ensures var os := Tidy(Read(upload.value).value, parseNumber).value;
            var inflow := SafeForecast(engine, InflowSeries(os));
            var outflow := SafeForecast(engine, OutflowSeries(os));
            && |os| >= MinRows && History(os) && inflow.Fitted? && outflow.Fitted?
            && DistinctLabels(Normalize(Read(upload.value).value.headers))
            && Respond(upload, parseNumber, engine).body
               == Body(|os|, Combine(os, inflow.forecast, outflow.forecast, engine.round2))
  {
  }

  /**
   * If neither model can be fitted to the inflow series, the answer is a 500
   * carrying the simple model's error message, and the outflow series is
   * never forecast.
   */
  lemma InflowFitFailure(file: UploadedFile, parseNumber: string -> Num, engine: Engine)
    requires Read(file).Ok? && Tidy(Read(file).value, parseNumber).Ok?
    requires |Tidy(Read(file).value, parseNumber).value| >= MinRows
    requires var s := InflowSeries(Tidy(Read(file).value, parseNumber).value);
             engine.trendFit(s).FitFailed? && engine.simpleFit(s).FitFailed?
    ensures var s := InflowSeries(Tidy(Read(file).value, parseNumber).value);
            Respond(Some(file), parseNumber, engine) == Refused(Raised(engine.simpleFit(s).message))
  {
    var os := Tidy(Read(file).value, parseNumber).value;
    assert SafeForecast(engine, InflowSeries(os)) == engine.simpleFit(InflowSeries(os));
    assert Assemble(os, Normalize(Read(file).value.headers), engine) == Err(Raised(engine.simpleFit(InflowSeries(os)).message));
  }

  /**
   * If the inflow series is forecast but neither model can be fitted to the
   * outflow series, the answer is a 500 carrying the simple model's error
   * message for the outflow series.
   */
  lemma OutflowFitFailure(file: UploadedFile, parseNumber: string -> Num, engine: Engine)
    requires Read(file).Ok? && Tidy(Read(file).value, parseNumber).Ok?
    requires |Tidy(Read(file).value, parseNumber).value| >= MinRows
    requires var os := Tidy(Read(file).value, parseNumber).value;
             SafeForecast(engine, InflowSeries(os)).Fitted?
    requires var s := OutflowSeries(Tidy(Read(file).value, parseNumber).value);
             engine.trendFit(s).FitFailed? && engine.simpleFit(s).FitFailed?
    ensures var s := OutflowSeries(Tidy(Read(file).value, parseNumber).value);
            Respond(Some(file), parseNumber, engine) == Refused(Raised(engine.simpleFit(s).message))
  {
    var os := Tidy(Read(file).value, parseNumber).value;
    assert SafeForecast(engine, OutflowSeries(os)) == engine.simpleFit(OutflowSeries(os));
    assert Assemble(os, Normalize(Read(file).value.headers), engine) == Err(Raised(engine.simpleFit(OutflowSeries(os)).message));
  }

  /**
   * Two columns that share a label after stripping and renaming (other than
   * the three the handler selects, which fail earlier) make the concatenation
   * on line 108 raise once both series are forecast: the answer is a 500.
   */
  lemma RepeatedLabelsFail(file: UploadedFile, parseNumber: string -> Num, engine: Engine)
    requires Read(file).Ok? && Tidy(Read(file).value, parseNumber).Ok?
    requires |Tidy(Read(file).value, parseNumber).value| >= MinRows
    requires var os := Tidy(Read(file).value, parseNumber).value;
             SafeForecast(engine, InflowSeries(os)).Fitted? && SafeForecast(engine, OutflowSeries(os)).Fitted?
    requires !DistinctLabels(Normalize(Read(file).value.headers))
    ensures Respond(Some(file), parseNumber, engine) == Refused(Raised(ReindexNeedsUniqueLabels))
    ensures StatusCode(Respond(Some(file), parseNumber, engine)) == 500
  {
    var os := Tidy(Read(file).value, parseNumber).value;
    assert Assemble(os, Normalize(Read(file).value.headers), engine) == Err(Raised(ReindexNeedsUniqueLabels));
  }

  /**
   * A table whose month cells all fail the `%y-%b` format (for instance,
   * day-month-year strings such as "01-Jan-24") is answered with the 400
   * "not enough rows" error: the re-parse on line 48 recovers no month.
   */
  lemma UnparsableMonthsRefused(file: UploadedFile, parseNumber: string -> Num, engine: Engine)
    requires Read(file).Ok?
    requires var n := Normalize(Read(file).value.headers);
             Find(n, "Month").At? && Find(n, "Inflow").At? && Find(n, "Outflow").At?
    requires var t := Read(file).value; var m := Find(Normalize(t.headers), "Month").index;
             forall k :: 0 <= k < |t.rows| ==> ParseCell(CellAt(t.rows[k], m)).None?
    ensures Respond(Some(file), parseNumber, engine) == Refused(NotEnoughRows)
  {
    var t := Read(file).value;
    var n := Normalize(t.headers);
    NoMonthNoRows(t.rows, Find(n, "Month").index, Find(n, "Inflow").index, Find(n, "Outflow").index, parseNumber);
  }

  /**
   * Which answer a request gets: 200 exactly when a file of a supported type
   * was read and cleaned into at least three rows, both series could be
   * forecast, and no two columns share a label; 400 exactly when no file came, its name has no supported
   * suffix, or fewer than three rows survived cleaning; 500 otherwise.
   */
  lemma StatusCodes(upload: Option<UploadedFile>, parseNumber: string -> Num, engine: Engine)
    ensures var code := StatusCode(Respond(upload, parseNumber, engine));
      && (code == 200 <==>
            && upload.Some? && Read(upload.value).Ok? && Tidy(Read(upload.value).value, parseNumber).Ok?
            && var os := Tidy(Read(upload.value).value, parseNumber).value;
               |os| >= MinRows
               && SafeForecast(engine, InflowSeries(os)).Fitted? && SafeForecast(engine, OutflowSeries(os)).Fitted?
               && DistinctLabels(Normalize(Read(upload.value).value.headers)))
      && (code == 400 <==>
            || upload.None? || Dispatch(upload.value.filename) == Unsupported
            || (Read(upload.value).Ok? && Tidy(Read(upload.value).value, parseNumber).Ok?
                && |Tidy(Read(upload.value).value, parseNumber).value| < MinRows))
      && (code == 200 || code == 400 || code == 500)
  {
    if upload.Some? && Read(upload.value).Err? {
      assert Read(upload.value).error.Raised? <==> Dispatch(upload.value.filename) != Unsupported;
    }
  }

  /** "No file uploaded" answers exactly the requests without a named file: no later stage refuses that way. */
  lemma NoFileOnlyWithoutUpload(upload: Option<UploadedFile>, parseNumber: string -> Num, engine: Engine)
    ensures NoUpload(upload) <==> Respond(upload, parseNumber, engine) == Refused(NoFile)
  {
    if !NoUpload(upload) && Read(upload.value).Ok? && Tidy(Read(upload.value).value, parseNumber).Ok? {
      var os := Tidy(Read(upload.value).value, parseNumber).value;
      if |os| >= MinRows {
        var labels := Normalize(Read(upload.value).value.headers);
        assert Assemble(os, labels, engine).Err? ==> Assemble(os, labels, engine).error.Raised?;
      }
    }
  }

  /**
   * The rows received are the usable uploaded rows: those whose month parses
   * and whose two amounts are present, every copy counted.
   */
  lemma ServedRowsReceived(upload: Option<UploadedFile>, parseNumber: string -> Num, engine: Engine)
    requires Respond(upload, parseNumber, engine).Served?
    ensures upload.Some? && Read(upload.value).Ok?
    ensures var t := Read(upload.value).value;
            var n := Normalize(t.headers);
            && Find(n, "Month").At? && Find(n, "Inflow").At? && Find(n, "Outflow").At?
            && Respond(upload, parseNumber, engine).body.rowsReceived
               == UsableCount(t.rows, Find(n, "Month").index, Find(n, "Inflow").index, Find(n, "Outflow").index, parseNumber)
  {
    ServedBody(upload, parseNumber, engine);
    var t := Read(upload.value).value;
    var n := Normalize(t.headers);
    CleanRowsLength(t.rows, Find(n, "Month").index, Find(n, "Inflow").index, Find(n, "Outflow").index, parseNumber);
  }

  /**
   * Once the three columns are found, the "not enough rows" answer is given
   * exactly when fewer than three uploaded rows are usable; three identical
   * usable rows are enough.
   */
  lemma GateCountsUsableRows(file: UploadedFile, parseNumber: string -> Num, engine: Engine)
    requires Read(file).Ok?
    requires var n := Normalize(Read(file).value.headers);
             Find(n, "Month").At? && Find(n, "Inflow").At? && Find(n, "Outflow").At?
    ensures var t := Read(file).value;
            var n := Normalize(t.headers);
            Respond(Some(file), parseNumber, engine) == Refused(NotEnoughRows)
            <==> UsableCount(t.rows, Find(n, "Month").index, Find(n, "Inflow").index, Find(n, "Outflow").index, parseNumber) < MinRows
  {
    var t := Read(file).value;
    var n := Normalize(t.headers);
    var os := CleanRows(t.rows, Find(n, "Month").index, Find(n, "Inflow").index, Find(n, "Outflow").index, parseNumber);
    CleanRowsLength(t.rows, Find(n, "Month").index, Find(n, "Inflow").index, Find(n, "Outflow").index, parseNumber);
    assert Tidy(t, parseNumber) == Ok(os);
    if |os| >= MinRows {
      assert Assemble(os, n, engine).Err? ==> Assemble(os, n, engine).error.Raised?;
    }
  }

  /** The JSON answer and its status: the body when served, the `error` text otherwise. */
  datatype Reply = Reply(status: int, body: Option<Body>, error: Option<string>)

  /** `jsonify` with its status code (lines 21, 29, 59, 115-119 and 123). */
  function Render(r: Response): (reply: Reply)
    ensures reply.status == StatusCode(r)
    ensures r.Served? ==> reply.body == Some(r.body) && reply.error.None?
    ensures r.Refused? ==> reply.body.None? && reply.error == Some(Message(r.failure)) && reply.status == Status(r.failure)
  {
    match r
    case Served(body) => Reply(200, Some(body), None)
    case Refused(f) => Reply(Status(f), None, Some(Message(f)))
  }

  /** Two 400 answers carry the same `error` text exactly when they are the same refusal. */
  lemma RefusalsTellApart(a: Response, b: Response)
    requires a.Refused? && b.Refused? && StatusCode(a) == 400 && StatusCode(b) == 400
    ensures Render(a).error == Render(b).error <==> a == b
  {
    RefusalMessagesDistinct();
  }

  /**
   * Steps 2 to 4 (lines 32-56): the columns are stripped and renamed, the
   * month column is overwritten by the parsed months (re-parsed when none
   * parsed), the rows are filtered and sorted, the amounts coerced, the net
   * derived, and the incomplete rows dropped.
   */
  method CleanTable(table: RawTable, parseNumber: string -> Num) returns (r: Result<seq<Observation>, Failure>)
    ensures r == Tidy(table, parseNumber)
    ensures r.Ok? ==> History(r.value)
  {
    var columns := seq(|table.headers|, k requires 0 <= k < |table.headers| => Strip(table.headers[k]));
    columns := seq(|columns|, k requires 0 <= k < |columns| => Rename(columns[k]));
    assert columns == Normalize(table.headers);
    var monthAt: nat;
    match Find(columns, "Month") {
      case Absent => return Err(Raised(KeyErrorMessage("Month")));
      case Repeated => return Err(Raised(FrameHasNoToList));
      case At(m) => monthAt := m;
    }
    var rows := table.rows;
    var months := seq(|rows|, k requires 0 <= k < |rows| => ParseCell(CellAt(rows[k], monthAt)));
    if AllMissing(months) {
      months := ReconvertDates(months);
    }
    assert months == ParseMonths(rows, monthAt);
    var dated := SortByMonth(KeepDated(rows, months));
    var inflowAt: nat;
    match Find(columns, "Inflow") {
      case Absent => return Err(Raised(KeyErrorMessage("Inflow")));
      case Repeated => return Err(Raised(ToNumericNeedsSeries));
      case At(i) => inflowAt := i;
    }
    var outflowAt: nat;
    match Find(columns, "Outflow") {
      case Absent => return Err(Raised(KeyErrorMessage("Outflow")));
      case Repeated => return Err(Raised(ToNumericNeedsSeries));
      case At(u) => outflowAt := u;
    }
    var history := Coerce(dated, inflowAt, outflowAt, parseNumber);
    history := DropIncomplete(history);
    assert history == CleanRows(rows, monthAt, inflowAt, outflowAt, parseNumber);
    r := Ok(history);
  }

  /**
   * The handler as it runs (lines 18-123): each step in the handler's order,
   * with every exception turned into the 500 answer.
   */
  method HandleForecast(upload: Option<UploadedFile>, parseNumber: string -> Num, engine: Engine)
    returns (response: Response)
    ensures response == Respond(upload, parseNumber, engine)
    ensures response.Served? ==>
              && response.body.rowsReceived >= MinRows
              && |response.body.forecast| == response.body.rowsReceived + HorizonLength
  {
    if NoUpload(upload) {
      return Refused(NoFile);
    }
    var table := Read(upload.value);
    if table.Err? {
      return Refused(table.error);
    }
    var history := CleanTable(table.value, parseNumber);
    if history.Err? {
      return Refused(history.error);
    }
    if |history.value| < MinRows {
      return Refused(NotEnoughRows);
    }
    var body := Assemble(history.value, Normalize(table.value.headers), engine);
    if body.Err? {
      return Refused(body.error);
    }
    response := Served(body.value);
  }
}
