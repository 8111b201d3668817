# Cash-flow forecast handler — Dafny model

This project models the `/forecast` endpoint of the cash-flow forecasting
backend (`backend/app.py`). A client uploads a spreadsheet of monthly cash
inflows and outflows. The handler:

1. refuses a request without a file, and picks a reader by the file name's
   suffix (`.csv`, then `.xlsx` / `.xls`), refusing any other name;
2. strips the column headers and renames the spreadsheet's long names
   (`Months`, `Cash Inflow`, `Cash Outflow`, `Net Cash Flow`) to the canonical
   `Month`, `Inflow`, `Outflow`, `Net_Cashflow`;
3. parses the month column with the two-digit-year format `%y-%b`
   (`24-Jan`), drops rows without a month and sorts by month;
4. coerces inflow and outflow to numbers, recomputes the net cash flow as
   their sum and drops rows missing either amount;
5. refuses tables with fewer than three rows left;
6. forecasts inflow and outflow twelve months ahead (trend exponential
   smoothing, falling back to simple exponential smoothing);
7. labels the twelve months after the last observed one as `Mon-YYYY`,
   rounds the forecasts, and appends them to the history rows, with
   non-finite numbers turned into JSON `null`;
8. answers with `rows_received` and the combined records, or with an error
   body: 400 for the handler's own refusals, 500 for any exception raised.

Modules, one per stage, in dependency order:

- `Wrappers` — `Option` and `Result`.
- `Floats` — double-precision values as finite reals, NaN and the two
  infinities, with IEEE addition and the JSON mapping of non-finite values.
- `Errors` — the handler's failures and their status codes.
- `Upload` — the suffix dispatch of step 1.
- `Headers` — `str.strip`, the rename map and column lookup of step 2.
- `Calendar` — year-months, the `%y-%b` parser, the `%b-%Y` display format
  and the month-start horizon of step 7.
- `Cleaning` — steps 3 and 4 as pure functions on a raw table.
- `Assembly` — `safe_forecast`, the forecast records and the combination.
- `Handler` — the whole request as the function `Respond`, and the method
  `HandleForecast` that computes it stage by stage in the handler's order.

Lines 47-48 evidently try a second, day-month-year format (`01-Jan-24`) when
no month parses with `%y-%b`. But they re-parse the column that line 46 has
already converted, which then holds nothing but missing values, so they recover
no month at all. The model follows the code as written: such a file is refused
with "not enough rows" (`Cleaning.FallbackRecoversNothing`,
`Handler.UnparsableMonthsRefused`).

## Model

| member | source | states |
|---|---|---|
| Errors.Status | backend/app.py:19-29 | a failure answers 500 exactly when it is a raised exception, and 400 for the handler's own refusals |
| Errors.Message | backend/app.py:121-123 | the `error` text of an exception is the exception's own message |
| Errors.RefusalMessagesDistinct | backend/app.py:19-59 | the three refusals ("No file uploaded", "Unsupported file format", "Not enough valid rows for forecasting") are worded differently |
| Errors.MonthKeyError | backend/app.py:43 | the error message of the missing `Month` column is `'Month'` |
| Floats.Add | backend/app.py:55 | the sum of two amounts is NaN when either is NaN or the infinities cancel, finite exactly when both are, and then the real sum |
| Floats.ToJson | backend/app.py:109 | NaN and the infinities become `null`; a finite value is kept as is |
| Upload.Dispatch | backend/app.py:24-29 | a name ending in `.csv` is read as CSV; otherwise one ending in `.xlsx` or `.xls` is read as Excel; every other name is unsupported |
| Upload.EndsWithMeansConcat | backend/app.py:24 | `endswith(suffix)` holds exactly when the name is some prefix followed by the suffix |
| Upload.RejectedByLastChar | backend/app.py:24-29 | a name whose last character is not `v`, `x` or `s` is unsupported |
| Upload.DispatchBySuffix | backend/app.py:24-27 | any name followed by `.csv`, `.xlsx` or `.xls` picks the matching reader |
| Upload.DispatchCaseSensitive | backend/app.py:24-29 | the suffix test is case-sensitive: `.CSV`, `.XLSX`, `.XLS` and `.csv.txt` are unsupported |
| Headers.Strip | backend/app.py:32 | the result has no leading or trailing whitespace, and is a slice of the header with only whitespace cut away on both sides |
| Headers.StripFixesTrimmed | backend/app.py:32 | stripping leaves a header unchanged exactly when it has no surrounding whitespace |
| Headers.RenameCases | backend/app.py:33-41 | a header becomes `Month` exactly when it is `Month` or `Months` (likewise `Inflow`, `Outflow`, `Net_Cashflow`); any other header is kept |
| Headers.Normalize | backend/app.py:32-41 | normalising keeps the number of columns and leaves every header trimmed |
| Headers.NormalizedHeader | backend/app.py:32-41 | column k is called `Month` after normalisation exactly when its stripped name is `Month` or `Months` (likewise for the other three); other names are only stripped |
| Headers.RenameSettles | backend/app.py:33-41 | no renamed header is itself one of the long names, so renaming twice changes nothing |
| Headers.NormalizeIdempotent | backend/app.py:32-41 | normalising already normalised headers changes nothing |
| Headers.Find | backend/app.py:43 | a column name is absent, present at exactly one index, or repeated, and the answer says which |
| Headers.DistinctLabelsFound | backend/app.py:32-43 | the column labels are all different exactly when each column's label is found at that column alone |
| Headers.NormalizeLettered | backend/app.py:32-41 | a header that starts and ends with a letter is only renamed |
| Headers.SpreadsheetHeadersNormalize | backend/app.py:32-41 | the headers `Months`, `Cash Inflow`, `Cash Outflow` become `Month`, `Inflow`, `Outflow` |
| Headers.SpreadsheetColumns | backend/app.py:32-43 | with those headers, month, inflow and outflow are found at columns 0, 1 and 2 |
| Headers.NetColumnTwice | backend/app.py:32-41 | headers `Month`, `Inflow`, `Outflow`, `Net Cash Flow`, `Net_Cashflow` give each core column once, but two columns labelled `Net_Cashflow` |
| Calendar.OrdinalInjective | backend/app.py:50 | the month ordering used for sorting tells different months apart |
| Calendar.Next | backend/app.py:82 | the next month start is exactly one month later |
| Calendar.Horizon | backend/app.py:80-85 | the horizon holds twelve months, the k-th being k+1 months after the last observed month, within that year or the next |
| Calendar.HorizonConsecutive | backend/app.py:81-85 | the horizon starts the month after the last one and each month follows the previous one |
| Calendar.HorizonAfterMarch2024 | backend/app.py:80-88 | after March 2024 the horizon runs from `Apr-2024` to `Mar-2025` |
| Calendar.NumeralRoundTrip | backend/app.py:88 | a fixed-width zero-padded numeral reads back as the number it writes |
| Calendar.NumeralValueInjective | backend/app.py:46 | two digit strings of the same width with the same value are equal |
| Calendar.MonthNamed | backend/app.py:46 | `%b` matches a word exactly when it equals a month abbreviation, ignoring ASCII case |
| Calendar.CenturyYear | backend/app.py:46 | `%y` maps 69-99 to 1969-1999 and 00-68 to 2000-2068, keeping the last two digits |
| Calendar.ParseShort | backend/app.py:46 | every month parsed with `%y-%b` lies in 1969-2068 |
| Calendar.ParseShortSound | backend/app.py:46 | a string parsed as a month is that month's canonical `YY-Mon` text, up to letter case |
| Calendar.ParseShortComplete | backend/app.py:46 | the canonical `YY-Mon` text of a month in any letter case parses as that month |
| Calendar.ParseFormatShort | backend/app.py:46 | formatting a month as `YY-Mon` and parsing it back gives the same month |
| Calendar.ParseShort2024 | backend/app.py:46 | `24-` followed by any month's abbreviation parses as that month of 2024 |
| Calendar.Display | backend/app.py:88 | the `%b-%Y` label is the month's three-letter abbreviation, a dash, and the year as four digits |
| Calendar.DisplayInjective | backend/app.py:88 | different months get different `Mon-YYYY` labels |
| Cleaning.ParseMonths | backend/app.py:46 | each row's month is the `%y-%b` parse of its month cell, or missing |
| Cleaning.FallbackRecoversNothing | backend/app.py:47-48 | when no month cell parses, the column seen by the second format holds only missing values, so the fallback recovers nothing |
| Cleaning.DayMonthYearNeverParses | backend/app.py:46-48 | a `DD-Mon-YY` string never parses as `%y-%b` |
| Cleaning.KeepDated | backend/app.py:50 | exactly the rows with a parsed month are kept, none when no month parsed, and all (in order) when every month parsed |
| Cleaning.KeepDatedCounts | backend/app.py:50 | every copy of a month-bearing row is kept: each dated row occurs as often as input positions carry that row with that month |
| Cleaning.InsertByMonth | backend/app.py:50 | inserting a row into sorted rows keeps them sorted and adds just that row |
| Cleaning.SortByMonth | backend/app.py:50 | sorting yields rows in ascending month order that are a permutation of the input |
| Cleaning.SortStrictlyAscendingUnchanged | backend/app.py:50 | rows whose months strictly increase are left as they are |
| Cleaning.ResortKeepsMonths | backend/app.py:50 | sorting sorted rows again gives the same month column (rows sharing a month may trade places) |
| Cleaning.SortedMembers | backend/app.py:50 | sorting neither loses nor invents a row |
| Cleaning.Observe | backend/app.py:53-55 | the observation keeps the row's month, its amounts are the coerced inflow and outflow cells of the row, and its net is their sum |
| Cleaning.Coerce | backend/app.py:53-55 | every row is coerced, in order, and month order is preserved |
| Cleaning.CoerceSortCounts | backend/app.py:50-55 | coercing the sorted rows gives the same observations, as many times each, as coercing them unsorted |
| Cleaning.CoercedMember | backend/app.py:53-55 | every dated row's coercion is among the coerced rows |
| Cleaning.DropIncomplete | backend/app.py:56 | exactly the rows with both amounts present are kept, month order is preserved, and nothing is dropped when all are complete |
| Cleaning.DropIncompleteCounts | backend/app.py:56 | every copy of a complete observation is kept and no copy of an incomplete one |
| Cleaning.CleanRows | backend/app.py:46-56 | the cleaned history is in month order, every row has both amounts, and its net is their sum |
| Cleaning.CleanRowsIsHistory | backend/app.py:46-56 | the cleaned rows form a valid history: ascending and complete |
| Cleaning.CleanRowsRetains | backend/app.py:46-56 | an observation is in the cleaned history exactly when some input row yields it |
| Cleaning.CleanRowsCounts | backend/app.py:46-56 | an observation occurs in the cleaned history exactly as many times as uploaded rows yield it |
| Cleaning.UsableCount | backend/app.py:46-56 | at most one usable row per uploaded row, and every row counts when all are usable |
| Cleaning.CleanRowsLength | backend/app.py:46-56 | the cleaned history has one row per uploaded row whose month parses and whose two amounts are present |
| Cleaning.KeptObservationHasRow | backend/app.py:46-56 | every cleaned observation comes from an input row |
| Cleaning.YieldingRowIsKept | backend/app.py:46-56 | every input row with a parsed month and both amounts survives cleaning |
| Cleaning.NoMonthNoRows | backend/app.py:46-50 | when no month cell parses, nothing survives cleaning |
| Cleaning.Tidy | backend/app.py:32-56 | cleaning succeeds exactly when `Month`, `Inflow` and `Outflow` are each found once, and then returns the cleaned rows; a missing column raises a `KeyError` naming it; a repeated `Month` raises the attribute error of `tolist` (line 43) and a repeated `Inflow` or `Outflow` the type error of `to_numeric` (lines 53-54); the columns are checked in the order Month, Inflow, Outflow |
| Assembly.SafeForecast | backend/app.py:62-71 | the trend model's forecast is used when it fits; when it fails, the simple model's result (forecast or error) is the result; it fails only when both fail |
| Assembly.InflowSeries | backend/app.py:73 | the inflow series is indexed by the history's months and holds its inflows in order |
| Assembly.OutflowSeries | backend/app.py:74 | the outflow series is indexed by the history's months and holds its outflows in order |
| Assembly.HistoryRecord | backend/app.py:99-109 | a history row is labelled `Mon-YYYY`, carries the row's inflow and outflow (null where not finite), and its net is their sum whenever both are present |
| Assembly.ForecastRecord | backend/app.py:87-105 | a forecast row is labelled with its month and holds the rounded forecasts; its net is their sum whenever both are present |
| Assembly.HistoryRecords | backend/app.py:99-100 | one record per history row, in order |
| Assembly.ForecastRecords | backend/app.py:80-96 | twelve forecast records, the k-th for the k-th horizon month with the k-th forecasts |
| Assembly.DropAllNull | backend/app.py:110 | exactly the records with some non-null field are kept, and nothing is dropped when every record has a month |
| Assembly.Combine | backend/app.py:108-110 | no combined record has every field null |
| Assembly.CombineDropsNothing | backend/app.py:108-110 | the combined records are the history records followed by the forecast records; the all-null drop removes nothing |
| Assembly.CombineLayout | backend/app.py:99-110 | the result has the history rows' count plus twelve records: the history first, then the forecast records for the horizon months |
| Assembly.HorizonAfterHistory | backend/app.py:80-85 | every forecast month is later than every history month |
| Assembly.ForecastMonthsAreNew | backend/app.py:99-110 | no forecast record has the month label of a history record |
| Assembly.Assemble | backend/app.py:62-117 | the body is served exactly when both series are forecast and no column label repeats; otherwise the exception is the inflow series' fit error, else the outflow series' fit error, else pandas' reindexing error of the concatenation on line 108; a served body reports every history row and twelve more records |
| Handler.StatusCode | backend/app.py:19-123 | the status is 200 for a served body, 400 for the handler's own refusals and 500 for raised exceptions |
| Handler.Read | backend/app.py:24-29 | a `.csv` name gets the CSV reader's table, an Excel name the spreadsheet reader's, a reader's exception becomes a raised failure, and "unsupported format" comes exactly when the name has no supported suffix |
| Handler.RejectedBeforeReading | backend/app.py:19-29 | without a file, or with an unsupported name, the answer is a 400 that does not depend on the file's contents: "no file" when the upload is missing or has an empty name, "unsupported format" otherwise |
| Handler.Respond | backend/app.py:17-123 | a served answer reports at least three rows |
| Handler.NoFileOnlyWithoutUpload | backend/app.py:19-21 | "No file uploaded" answers exactly the requests with no file or an unnamed one |
| Handler.GateBeforeForecast | backend/app.py:58-59 | with fewer than three clean rows the answer is the 400 "not enough rows", whatever the forecasting engine |
| Handler.MissingMonthColumn | backend/app.py:43 | without a `Month` column the answer is a 500 whose message is the key `'Month'` |
| Handler.UnparsableMonthsRefused | backend/app.py:46-59 | when no month cell parses with `%y-%b` (day-month-year dates included), the answer is the 400 "not enough rows" |
| Handler.InflowFitFailure | backend/app.py:62-76 | when both models fail on the inflow series, the answer is a 500 with the simple model's error |
| Handler.OutflowFitFailure | backend/app.py:62-77 | when the inflow series is forecast but both models fail on the outflow series, the answer is a 500 with the simple model's error for the outflow series |
| Handler.RepeatedLabelsFail | backend/app.py:107-123 | when two columns share a label after stripping and renaming, an upload that would otherwise be served gets a 500 with pandas' reindexing error |
| Handler.ServedBody | backend/app.py:58-118 | a served answer comes from at least three clean rows, both forecasts fitted and no repeated column label, and its body is the row count with the history followed by the forecast |
| Handler.StatusCodes | backend/app.py:19-123 | 200 exactly when a file was read and cleaned into at least three rows, both series were forecast, and no two columns share a label after stripping and renaming; 400 exactly when no file came, its name is unsupported, or fewer than three rows remained |
| Handler.ServedRowsReceived | backend/app.py:46-58 | a served answer's `rows_received` is the number of uploaded rows whose month parses and whose two amounts are present |
| Handler.GateCountsUsableRows | backend/app.py:50-59 | once the columns are found, "not enough rows" is answered exactly when fewer than three uploaded rows are usable, so three identical usable rows pass |
| Handler.Render | backend/app.py:115-123 | a served answer is the body with status 200; a refusal is its failure's message with its failure's status |
| Handler.RefusalsTellApart | backend/app.py:19-59 | two 400 answers carry the same `error` text exactly when they are the same refusal |
| Handler.CleanTable | backend/app.py:32-56 | the stage-by-stage cleaning computes `Tidy`: the cleaned rows when the three columns are found, the column's error otherwise |
| Handler.HandleForecast | backend/app.py:17-123 | the handler computes `Respond`, calling `Read`, `CleanTable` and `Assemble` in turn; a served body reports at least three rows and holds twelve more records than it received |

## Left out

- File I/O and the readers themselves: each reader's result (a table, or an exception message) is a field of the uploaded file.
- The fitting numerics of both exponential smoothing models: the engine is a parameter whose fits may succeed with twelve values or fail with a message.
- `np.round` to two decimals is an abstract parameter of the engine; decimal rounding of doubles is not modelled.
- Floating-point rounding and overflow of the sum on line 55 and line 95: finite values add as reals.
- `pd.to_numeric`'s number grammar is a parameter from text to number; numeric cells pass through unchanged.
- Month cells that are not strings (native Excel dates, numbers) do not parse; only ASCII letter case is folded, and only ASCII digits count.
- The values of columns other than Month, Inflow and Outflow, and of the `*_Forecast` helper columns, are not carried in the records. Only their labels are modelled: two columns that share a label after stripping and renaming (`Notes` and `Notes `, or `Net Cash Flow` beside `Net_Cashflow`) make the concatenation on line 108 raise, and the answer is a 500 (`Handler.RepeatedLabelsFail`).
- Cleaning.SortByMonth: pandas' sort is not stable; the model sorts deterministically (an insertion sort that keeps rows already in order in place, `Cleaning.SortAscendingUnchanged`) and promises about the source only ascending order, a permutation, and the order of rows whose months differ.
- Header labels that are not text: a spreadsheet whose header row holds a number or a date gives a non-string label, on which the `strip` of line 32 raises and the handler answers 500; the model's headers are always text.
- The debug output printed on lines 43, 69, 112 and 122 (the column lookup on line 43 is modelled) and the root route on lines 11-13 have no effect on the answer and are not modelled.
- The field order of each JSON record is not modelled.
