/**
 * Forecasting and response assembly: the two-step `safe_forecast` strategy
 * around the smoothing library, the twelve forecast rows with their net
 * cashflow, and the combined record list (history first, then forecast).
 */
module Assembly {
  import opened Wrappers
  import opened Floats
  import opened Calendar
  import opened Cleaning
  import opened Errors
  import opened Headers

  /** What `fit.forecast(12)` returns: exactly twelve values. */
  type Forecast12 = s: seq<Num> | |s| == HorizonLength
    witness [NaN, NaN, NaN, NaN, NaN, NaN, NaN, NaN, NaN, NaN, NaN, NaN]

  /** A model fit and its twelve-step forecast, or the message of the exception it raised. */
  datatype Fit = Fitted(forecast: Forecast12) | FitFailed(message: string)

  /** The series handed to the smoothing library: the values, indexed by month. */
  datatype Series = Series(index: seq<YearMonth>, values: seq<Num>)

  /**
   * The library, seen from outside: the additive-trend fit, the simple
   * (no-trend) fit, and `np.round(_, 2)`. Their numerics are not modelled.
   */
  datatype Engine = Engine(trendFit: Series -> Fit, simpleFit: Series -> Fit, round2: Num -> Num)

  /**
   * `safe_forecast`: the additive-trend model, and on any failure the simple
   * model. The trend model's error is swallowed; only the simple model's
   * error escapes.
   */
  function SafeForecast(engine: Engine, s: Series): (r: Fit)
    ensures r.Fitted? <==> engine.trendFit(s).Fitted? || engine.simpleFit(s).Fitted?
    ensures engine.trendFit(s).Fitted? ==> r == engine.trendFit(s)
    ensures engine.trendFit(s).FitFailed? ==> r == engine.simpleFit(s)
    ensures r.FitFailed? ==> engine.trendFit(s).FitFailed? && r == engine.simpleFit(s)
  {
    match engine.trendFit(s)
    case Fitted(f) => Fitted(f)
    case FitFailed(_) => engine.simpleFit(s)
  }

  /** `pd.Series(df[column].values, index=df["Month"])` for the inflow column. */
  function InflowSeries(os: seq<Observation>): (s: Series)
    ensures |s.index| == |s.values| == |os|
    ensures forall k :: 0 <= k < |os| ==> s.index[k] == os[k].month && s.values[k] == os[k].inflow
  {
    Series(seq(|os|, k requires 0 <= k < |os| => os[k].month), seq(|os|, k requires 0 <= k < |os| => os[k].inflow))
  }

  /** The same for the outflow column. */
  function OutflowSeries(os: seq<Observation>): (s: Series)
    ensures |s.index| == |s.values| == |os|
    ensures forall k :: 0 <= k < |os| ==> s.index[k] == os[k].month && s.values[k] == os[k].outflow
  {
    Series(seq(|os|, k requires 0 <= k < |os| => os[k].month), seq(|os|, k requires 0 <= k < |os| => os[k].outflow))
  }

  /**
   * One output record: `Month` as a display string and the three amounts,
   * each null where the frame held NaN or an infinity.
   */
  datatype Record = Record(month: Option<string>, inflow: Option<real>, outflow: Option<real>, net: Option<real>)

  /** A historical row as displayed (lines 99-100, 109). */
  function HistoryRecord(o: Observation): (r: Record)
    requires FourDigitYear(o.month)
    ensures r.month == Some(Display(o.month))
    ensures r.inflow == ToJson(o.inflow) && r.outflow == ToJson(o.outflow)
    ensures r.inflow.Some? && r.outflow.Some? ==> r.net == Some(r.inflow.value + r.outflow.value)
    ensures r.net.Some? ==> r.inflow.Some? && r.outflow.Some?
  {
    Record(Some(Display(o.month)), ToJson(o.inflow), ToJson(o.outflow), ToJson(Add(o.inflow, o.outflow)))
  }

  /**
   * A forecast row (lines 87-96, 103-105, 109): both forecasts rounded, the
   * net forecast their sum, all three aliased into the shared fields.
   */
  function ForecastRecord(month: YearMonth, inflow: Num, outflow: Num, round2: Num -> Num): (r: Record)
    requires FourDigitYear(month)
    ensures r.month == Some(Display(month))
    ensures r.inflow == ToJson(round2(inflow)) && r.outflow == ToJson(round2(outflow))
    ensures r.inflow.Some? && r.outflow.Some? ==> r.net == Some(r.inflow.value + r.outflow.value)
    ensures r.net.Some? ==> r.inflow.Some? && r.outflow.Some?
  {
    var i, u := round2(inflow), round2(outflow);
    Record(Some(Display(month)), ToJson(i), ToJson(u), ToJson(Add(i, u)))
  }

  function HistoryRecords(os: seq<Observation>): (rs: seq<Record>)
    requires History(os)
    ensures |rs| == |os|
    ensures forall k :: 0 <= k < |os| ==> rs[k] == HistoryRecord(os[k])
  {
    seq(|os|, k requires 0 <= k < |os| => HistoryRecord(os[k]))
  }

  /** The twelve forecast rows, in horizon order after `last`. */
  function ForecastRecords(last: YearMonth, inflow: Forecast12, outflow: Forecast12, round2: Num -> Num): (rs: seq<Record>)
    requires ShortYearRange(last)
    ensures |rs| == HorizonLength
    ensures forall k :: 0 <= k < HorizonLength ==>
              FourDigitYear(Horizon(last)[k]) && rs[k] == ForecastRecord(Horizon(last)[k], inflow[k], outflow[k], round2)
  {
    var h := Horizon(last);
    assert forall k :: 0 <= k < HorizonLength ==> FourDigitYear(h[k]);
    seq(HorizonLength, k requires 0 <= k < HorizonLength => ForecastRecord(h[k], inflow[k], outflow[k], round2))
  }

  predicate AllNull(r: Record) {
    r.month.None? && r.inflow.None? && r.outflow.None? && r.net.None?
  }

  /** `dropna(how="all")`: the records with at least one non-null field, in order. */
  function DropAllNull(rs: seq<Record>): (r: seq<Record>)
    ensures forall x :: x in r <==> x in rs && !AllNull(x)
    ensures (forall k :: 0 <= k < |rs| ==> rs[k].month.Some?) ==> r == rs
  {
    if rs == [] then []
    else
      var rest := DropAllNull(rs[1..]);
      assert forall x :: x in rs[1..] ==> x in rs;
      if AllNull(rs[0]) then rest else [rs[0]] + rest
  }

  /** The response body: `rows_received` and the combined records. */
  datatype Body = Body(rowsReceived: nat, forecast: seq<Record>)

  /** Lines 99-110: history then forecast, concatenated, sanitised, all-null rows dropped. */
  function Combine(os: seq<Observation>, inflow: Forecast12, outflow: Forecast12, round2: Num -> Num): (rs: seq<Record>)
    requires |os| > 0 && History(os)
    ensures forall x :: x in rs ==> !AllNull(x)
  {
    DropAllNull(HistoryRecords(os) + ForecastRecords(os[|os| - 1].month, inflow, outflow, round2))
  }

  /**
   * Lines 62-117 on a history of at least three rows, given the column
   * labels of the cleaned frame: inflow is forecast first, then outflow, and
   * the history and forecast frames are concatenated (line 108), which
   * raises when a label repeats among the history's columns. A failure of
   * either forecast that the fallback cannot absorb escapes as an exception.
   */
  function Assemble(os: seq<Observation>, labels: seq<string>, engine: Engine): (r: Result<Body, Failure>)
    requires |os| >= 3 && History(os)
    ensures r.Err? ==> r.error.Raised?
    ensures var inflow := SafeForecast(engine, InflowSeries(os));
            var outflow := SafeForecast(engine, OutflowSeries(os));
            && (r.Ok? <==> inflow.Fitted? && outflow.Fitted? && DistinctLabels(labels))
            && (inflow.FitFailed? ==> r == Err(Raised(inflow.message)))
            && (inflow.Fitted? && outflow.FitFailed? ==> r == Err(Raised(outflow.message)))
            && (inflow.Fitted? && outflow.Fitted? && !DistinctLabels(labels) ==> r == Err(Raised(ReindexNeedsUniqueLabels)))
            && (r.Ok? ==> r.value == Body(|os|, Combine(os, inflow.forecast, outflow.forecast, engine.round2)))
    ensures r.Ok? ==> r.value.rowsReceived == |os| && |r.value.forecast| == |os| + HorizonLength
  {
    match SafeForecast(engine, InflowSeries(os))
    case FitFailed(m) => Err(Raised(m))
    case Fitted(inflow) =>
      match SafeForecast(engine, OutflowSeries(os))
      case FitFailed(m) => Err(Raised(m))
      case Fitted(outflow) =>
        if !DistinctLabels(labels) then Err(Raised(ReindexNeedsUniqueLabels))
        else
          CombineLayout(os, inflow, outflow, engine.round2);
          Ok(Body(|os|, Combine(os, inflow, outflow, engine.round2)))
  }

  /** Every row has a month, so the all-null drop keeps the concatenation as it is. */
  lemma CombineDropsNothing(os: seq<Observation>, inflow: Forecast12, outflow: Forecast12, round2: Num -> Num)
    requires |os| > 0 && History(os)
    ensures Combine(os, inflow, outflow, round2)
            == HistoryRecords(os) + ForecastRecords(os[|os| - 1].month, inflow, outflow, round2)
  {
    var hs := HistoryRecords(os);
    var fs := ForecastRecords(os[|os| - 1].month, inflow, outflow, round2);
    var rs := hs + fs;
    forall k | 0 <= k < |rs|
      ensures rs[k].month.Some?
    {
      if k < |hs| {
        assert rs[k] == hs[k];
      } else {
        assert rs[k] == fs[k - |hs|];
      }
    }
  }

  /**
   * The combined list is the history rows in month order followed by the
   * twelve forecast rows in horizon order; the all-null drop removes nothing,
   * since every row has a month.
   */
  lemma CombineLayout(os: seq<Observation>, inflow: Forecast12, outflow: Forecast12, round2: Num -> Num)
    requires |os| > 0 && History(os)
    ensures |Combine(os, inflow, outflow, round2)| == |os| + HorizonLength
    ensures forall k :: 0 <= k < |os| ==> Combine(os, inflow, outflow, round2)[k] == HistoryRecord(os[k])
    ensures forall j :: 0 <= j < HorizonLength ==>
              var m := Horizon(os[|os| - 1].month)[j];
              FourDigitYear(m) && Combine(os, inflow, outflow, round2)[|os| + j] == ForecastRecord(m, inflow[j], outflow[j], round2)
  {
    CombineDropsNothing(os, inflow, outflow, round2);
    var hs := HistoryRecords(os);
    var fs := ForecastRecords(os[|os| - 1].month, inflow, outflow, round2);
    var rs := hs + fs;
    forall j | 0 <= j < HorizonLength
      ensures rs[|os| + j] == fs[j]
    {
    }
  }

  /**
   * Every forecast month lies after every historical month: the history is
   * ascending, so its last row holds the latest month, and the horizon starts
   * after it.
   */
  lemma HorizonAfterHistory(os: seq<Observation>, k: int, j: int)
    requires |os| > 0 && History(os)
    requires 0 <= k < |os| && 0 <= j < HorizonLength
    ensures Ordinal(os[k].month) <= Ordinal(os[|os| - 1].month) < Ordinal(Horizon(os[|os| - 1].month)[j])
  {
  }

  /** No forecast row repeats the month of a historical row. */
  lemma ForecastMonthsAreNew(os: seq<Observation>, inflow: Forecast12, outflow: Forecast12, round2: Num -> Num, k: int, j: int)
    requires |os| > 0 && History(os)
    requires 0 <= k < |os| && 0 <= j < HorizonLength
    ensures var rs := Combine(os, inflow, outflow, round2);
            |rs| == |os| + HorizonLength && rs[k].month != rs[|os| + j].month
  {
    CombineLayout(os, inflow, outflow, round2);
    var h := Horizon(os[|os| - 1].month)[j];
    HorizonAfterHistory(os, k, j);
    if Display(os[k].month) == Display(h) {
      DisplayInjective(os[k].month, h);
    }
  }
}
