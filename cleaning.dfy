/**
 * Cleaning: from the uploaded table to the historical series. The month
 * column is parsed (with its all-or-nothing fallback), rows without a month
 * are dropped and the rest sorted by month; the two cash columns are coerced
 * to numbers, net cashflow is derived as their sum, and rows missing either
 * number are dropped.
 */
module Cleaning {
  import opened Wrappers
  import opened Floats
  import opened Calendar
  import opened Headers
  import opened Errors

  /** One cell as the reader delivers it: text, or a number (an empty cell is NaN). */
  datatype Cell = Text(text: string) | Number(num: Num)

  type Row = seq<Cell>

  /** The uploaded table: its header strings and its rows. */
  datatype RawTable = RawTable(headers: seq<string>, rows: seq<Row>)

  /** The cell of `row` in column `i`; the readers pad a short row with missing values. */
  function CellAt(row: Row, i: nat): Cell {
    if i < |row| then row[i] else Number(NaN)
  }

  // ---- month parsing (lines 46-48) ----

  /** `to_datetime(format="%y-%b", errors="coerce")` on one cell: only text can match the format. */
  function ParseCell(c: Cell): Option<YearMonth> {
    if c.Text? then ParseShort(c.text) else None
  }

  predicate AllMissing(ms: seq<Option<YearMonth>>) {
    forall k :: 0 <= k < |ms| ==> ms[k].None?
  }

  /**
   * `to_datetime(format="%d-%b-%y")` applied to the column line 46 already
   * converted: a column of dates is returned as it is and the format is never
   * consulted, so a missing date stays missing.
   */
  function ReconvertDates(ms: seq<Option<YearMonth>>): seq<Option<YearMonth>> {
    ms
  }

  /**
   * The parsed month column: the primary format on every cell and, when no
   * cell parsed, the fallback on the converted column.
   */
  function ParseMonths(rows: seq<Row>, at: nat): (ms: seq<Option<YearMonth>>)
    ensures |ms| == |rows|
    ensures forall k :: 0 <= k < |rows| ==> ms[k] == ParseCell(CellAt(rows[k], at))
  {
    var primary := seq(|rows|, k requires 0 <= k < |rows| => ParseCell(CellAt(rows[k], at)));
    if AllMissing(primary) then ReconvertDates(primary) else primary
  }

  /**
   * When the primary format parses no cell, the fallback recovers none: a
   * column written day-month-year ("01-Jan-24") leaves every month missing.
   */
  lemma FallbackRecoversNothing(rows: seq<Row>, at: nat)
    requires forall k :: 0 <= k < |rows| ==> ParseCell(CellAt(rows[k], at)).None?
    ensures AllMissing(ParseMonths(rows, at))
  {
  }

  /** Every cell in the day-month-year form ("01-Jan-24") fails the primary format. */
  lemma DayMonthYearNeverParses(s: string)
    requires |s| == 9 && s[2] == '-' && s[6] == '-'
    ensures ParseShort(s) == None
  {
  }

  // ---- dropping undated rows and sorting (line 50) ----

  /** A row whose month parsed. */
  datatype Dated = Dated(month: YearMonth, row: Row)

  /** `dropna(subset=["Month"])`: the rows with a month, in input order. */
  function KeepDated(rows: seq<Row>, ms: seq<Option<YearMonth>>): (r: seq<Dated>)
    requires |rows| == |ms|
    ensures |r| <= |rows|
    ensures forall d :: d in r <==> exists k :: 0 <= k < |rows| && ms[k] == Some(d.month) && rows[k] == d.row
    ensures AllMissing(ms) ==> r == []
    ensures (forall k :: 0 <= k < |ms| ==> ms[k].Some?) ==>
              |r| == |rows| && forall k :: 0 <= k < |rows| ==> r[k] == Dated(ms[k].value, rows[k])
    decreases |rows|
  {
    if rows == [] then []
    else
      var rest := KeepDated(rows[1..], ms[1..]);
      var r := (if ms[0].Some? then [Dated(ms[0].value, rows[0])] else []) + rest;
      KeptFromTail(rows, ms, rest);
      r
  }

  /** The rows kept from the tail are those of positions 1 onwards. */
  lemma KeptFromTail(rows: seq<Row>, ms: seq<Option<YearMonth>>, rest: seq<Dated>)
    requires |rows| == |ms| > 0
    requires forall d :: d in rest <==> exists k :: 0 <= k < |rows| - 1 && ms[1..][k] == Some(d.month) && rows[1..][k] == d.row
    ensures forall d :: d in rest <==> exists k :: 1 <= k < |rows| && ms[k] == Some(d.month) && rows[k] == d.row
  {
    forall d: Dated | d in rest
      ensures exists k :: 1 <= k < |rows| && ms[k] == Some(d.month) && rows[k] == d.row
    {
      var k :| 0 <= k < |rows| - 1 && ms[1..][k] == Some(d.month) && rows[1..][k] == d.row;
      assert ms[k + 1] == Some(d.month) && rows[k + 1] == d.row;
    }
    forall d: Dated | exists k :: 1 <= k < |rows| && ms[k] == Some(d.month) && rows[k] == d.row
      ensures d in rest
    {
      var k :| 1 <= k < |rows| && ms[k] == Some(d.month) && rows[k] == d.row;
      assert ms[1..][k - 1] == Some(d.month) && rows[1..][k - 1] == d.row;
    }
  }

  /** The number of positions holding row `d.row` with month `d.month`. */
  function Occurrences(rows: seq<Row>, ms: seq<Option<YearMonth>>, d: Dated): nat
    requires |rows| == |ms|
    decreases |rows|
  {
    if rows == [] then 0
    else (if ms[0] == Some(d.month) && rows[0] == d.row then 1 else 0) + Occurrences(rows[1..], ms[1..], d)
  }

  /**
   * `dropna` keeps every copy of a month-bearing row: a dated row occurs as
   * many times as positions of the input carry that row with that month.
   */
  lemma {:induction false} KeepDatedCounts(rows: seq<Row>, ms: seq<Option<YearMonth>>, d: Dated)
    requires |rows| == |ms|
    ensures multiset(KeepDated(rows, ms))[d] == Occurrences(rows, ms, d)
    decreases |rows|
  {
    if rows != [] {
      KeepDatedCounts(rows[1..], ms[1..], d);
    }
  }

  /** Months never decrease along the rows. */
  predicate DatedAscending(ds: seq<Dated>) {
    forall i, j :: 0 <= i < j < |ds| ==> Ordinal(ds[i].month) <= Ordinal(ds[j].month)
  }

  /** Inserts `d` into ascending rows before the first row with a later or equal month. */
  function InsertByMonth(d: Dated, ds: seq<Dated>): (r: seq<Dated>)
    requires DatedAscending(ds)
    ensures DatedAscending(r)
    ensures forall x :: x in r ==> x == d || x in ds
    ensures multiset(r) == multiset(ds) + multiset{d}
  {
    if ds == [] || Ordinal(d.month) <= Ordinal(ds[0].month) then
      [d] + ds
    else
      var rest := InsertByMonth(d, ds[1..]);
      assert ds == [ds[0]] + ds[1..];
      LeastFirst(ds[0], ds[1..], d, rest);
      [ds[0]] + rest
  }

  /** Putting in front a row no later than every other keeps the rows ascending. */
  lemma LeastFirst(first: Dated, tail: seq<Dated>, d: Dated, rest: seq<Dated>)
    requires DatedAscending([first] + tail) && DatedAscending(rest)
    requires Ordinal(first.month) <= Ordinal(d.month)
    requires forall x :: x in rest ==> x == d || x in tail
    ensures DatedAscending([first] + rest)
  {
    forall x | x in rest
      ensures Ordinal(first.month) <= Ordinal(x.month)
    {
      if x != d {
        var j :| 0 <= j < |tail| && tail[j] == x;
        var whole := [first] + tail;
        assert whole[0] == first && whole[j + 1] == x;
        assert Ordinal(whole[0].month) <= Ordinal(whole[j + 1].month);
      }
    }
    var s := [first] + rest;
    forall i, j | 0 <= i < j < |s|
      ensures Ordinal(s[i].month) <= Ordinal(s[j].month)
    {
      if i > 0 {
        assert s[i] == rest[i - 1] && s[j] == rest[j - 1];
      } else {
        assert s[j] in rest;
      }
    }
  }

  /**
   * `sort_values("Month")`: the same rows, months ascending. pandas' default
   * sort is not stable, so nothing is promised about rows sharing a month;
   * this insertion sort is one of the orders it may produce.
   */
  function SortByMonth(ds: seq<Dated>): (r: seq<Dated>)
    ensures DatedAscending(r)
    ensures multiset(r) == multiset(ds)
  {
    if ds == [] then []
    else
      assert ds == [ds[0]] + ds[1..];
      InsertByMonth(ds[0], SortByMonth(ds[1..]))
  }

  /**
   * The order this model's sort chooses: rows already in month order stay in
   * place. pandas promises this only when no two rows share a month (see
   * `SortStrictlyAscendingUnchanged`).
   */
  lemma {:induction false} SortAscendingUnchanged(ds: seq<Dated>)
    requires DatedAscending(ds)
    ensures SortByMonth(ds) == ds
  {
    if ds != [] {
      var tail := ds[1..];
      assert DatedAscending(tail);
      SortAscendingUnchanged(tail);
      assert tail == [] || Ordinal(ds[0].month) <= Ordinal(tail[0].month);
      assert ds == [ds[0]] + tail;
    }
  }

  /** Months strictly increase along the rows: no two rows share a month. */
  predicate StrictlyAscending(ds: seq<Dated>) {
    forall i, j :: 0 <= i < j < |ds| ==> Ordinal(ds[i].month) < Ordinal(ds[j].month)
  }

  /**
   * Rows whose months strictly increase are left as they are: with no two
   * rows sharing a month there is only one ascending order.
   */
  lemma SortStrictlyAscendingUnchanged(ds: seq<Dated>)
    requires StrictlyAscending(ds)
    ensures SortByMonth(ds) == ds
  {
    SortAscendingUnchanged(ds);
  }

  /**
   * Sorting sorted rows again gives the same month column; rows that share a
   * month may trade places, so only the months are promised.
   */
  lemma ResortKeepsMonths(ds: seq<Dated>)
    ensures var r := SortByMonth(ds);
            |SortByMonth(r)| == |r| && forall k :: 0 <= k < |r| ==> SortByMonth(r)[k].month == r[k].month
  {
    SortAscendingUnchanged(SortByMonth(ds));
  }

  // ---- numeric coercion, net cashflow, dropping incomplete rows (lines 53-56) ----

  /** A dated row with its two cash amounts and the derived net cashflow. */
  datatype Observation = Observation(month: YearMonth, inflow: Num, outflow: Num, net: Num)

  /**
   * `to_numeric(errors="coerce")` on one cell: a number stays as it is, and
   * text goes through `parseNumber`, which stands for pandas' number grammar
   * (NaN when the text is not a number).
   */
  function ToNumeric(c: Cell, parseNumber: string -> Num): Num {
    match c
    case Number(n) => n
    case Text(s) => parseNumber(s)
  }

  /** The observation a dated row gives: net cashflow is always derived, never read. */
  function Observe(d: Dated, inflowAt: nat, outflowAt: nat, parseNumber: string -> Num): (o: Observation)
    ensures o.month == d.month
    ensures o.inflow == ToNumeric(CellAt(d.row, inflowAt), parseNumber)
    ensures o.outflow == ToNumeric(CellAt(d.row, outflowAt), parseNumber)
    ensures o.net == Add(o.inflow, o.outflow)
  {
    var i := ToNumeric(CellAt(d.row, inflowAt), parseNumber);
    var u := ToNumeric(CellAt(d.row, outflowAt), parseNumber);
    Observation(d.month, i, u, Add(i, u))
  }

  /** Both cash amounts present (not NaN). */
  predicate Complete(o: Observation) {
    Present(o.inflow) && Present(o.outflow)
  }

  predicate Ascending(os: seq<Observation>) {
    forall i, j :: 0 <= i < j < |os| ==> Ordinal(os[i].month) <= Ordinal(os[j].month)
  }

  /** Lines 53-55, row by row: the coerced amounts and their sum. */
  function Coerce(ds: seq<Dated>, inflowAt: nat, outflowAt: nat, parseNumber: string -> Num): (os: seq<Observation>)
    ensures |os| == |ds|
    ensures forall k :: 0 <= k < |ds| ==> os[k] == Observe(ds[k], inflowAt, outflowAt, parseNumber)
    ensures DatedAscending(ds) ==> Ascending(os)
  {
    seq(|ds|, k requires 0 <= k < |ds| => Observe(ds[k], inflowAt, outflowAt, parseNumber))
  }

  /** Coercion row by row distributes over putting a row in front. */
  lemma CoerceCons(d: Dated, ds: seq<Dated>, inflowAt: nat, outflowAt: nat, parseNumber: string -> Num)
    ensures Coerce([d] + ds, inflowAt, outflowAt, parseNumber)
            == [Observe(d, inflowAt, outflowAt, parseNumber)] + Coerce(ds, inflowAt, outflowAt, parseNumber)
  {
    var l := Coerce([d] + ds, inflowAt, outflowAt, parseNumber);
    var r := [Observe(d, inflowAt, outflowAt, parseNumber)] + Coerce(ds, inflowAt, outflowAt, parseNumber);
    forall k | 0 <= k < |l|
      ensures l[k] == r[k]
    {
      if k > 0 {
        assert ([d] + ds)[k] == ds[k - 1];
      }
    }
  }

  /** Inserting a row adds exactly its observation to the coerced rows. */
  lemma {:induction false} CoerceInsertCounts(d: Dated, ds: seq<Dated>, inflowAt: nat, outflowAt: nat, parseNumber: string -> Num)
    requires DatedAscending(ds)
    ensures multiset(Coerce(InsertByMonth(d, ds), inflowAt, outflowAt, parseNumber))
            == multiset(Coerce(ds, inflowAt, outflowAt, parseNumber)) + multiset{Observe(d, inflowAt, outflowAt, parseNumber)}
  {
    if ds == [] || Ordinal(d.month) <= Ordinal(ds[0].month) {
      CoerceCons(d, ds, inflowAt, outflowAt, parseNumber);
    } else {
      assert ds == [ds[0]] + ds[1..];
      CoerceInsertCounts(d, ds[1..], inflowAt, outflowAt, parseNumber);
      CoerceCons(ds[0], InsertByMonth(d, ds[1..]), inflowAt, outflowAt, parseNumber);
      CoerceCons(ds[0], ds[1..], inflowAt, outflowAt, parseNumber);
    }
  }

  /** The sort only reorders, so the coerced rows are the same observations, as many times each. */
  lemma {:induction false} CoerceSortCounts(ds: seq<Dated>, inflowAt: nat, outflowAt: nat, parseNumber: string -> Num)
    ensures multiset(Coerce(SortByMonth(ds), inflowAt, outflowAt, parseNumber)) == multiset(Coerce(ds, inflowAt, outflowAt, parseNumber))
  {
    if ds != [] {
      assert ds == [ds[0]] + ds[1..];
      CoerceSortCounts(ds[1..], inflowAt, outflowAt, parseNumber);
      CoerceInsertCounts(ds[0], SortByMonth(ds[1..]), inflowAt, outflowAt, parseNumber);
      CoerceCons(ds[0], ds[1..], inflowAt, outflowAt, parseNumber);
    }
  }

  /** The first observation of an ascending series is no later than any observation of its tail. */
  lemma HeadFirst(os: seq<Observation>, o: Observation)
    requires |os| > 0 && Ascending(os) && o in os[1..]
    ensures Ordinal(os[0].month) <= Ordinal(o.month)
  {
    var j :| 0 <= j < |os[1..]| && os[1..][j] == o;
    assert os[j + 1] == o;
  }

  /** Putting an observation no later than any of an ascending series in front keeps it ascending. */
  lemma AscendingCons(o: Observation, rest: seq<Observation>)
    requires Ascending(rest)
    requires forall x :: x in rest ==> Ordinal(o.month) <= Ordinal(x.month)
    ensures Ascending([o] + rest)
  {
    var s := [o] + rest;
    forall i, j | 0 <= i < j < |s|
      ensures Ordinal(s[i].month) <= Ordinal(s[j].month)
    {
      assert s[j] == rest[j - 1];
      if i > 0 {
        assert s[i] == rest[i - 1];
      }
    }
  }

  /**
   * `dropna(subset=["Inflow", "Outflow"])`: exactly the complete observations,
   * in the order they came, so ascending months stay ascending.
   */
  function DropIncomplete(os: seq<Observation>): (r: seq<Observation>)
    ensures |r| <= |os|
    ensures forall o :: o in r <==> o in os && Complete(o)
    ensures Ascending(os) ==> Ascending(r)
    ensures (forall k :: 0 <= k < |os| ==> Complete(os[k])) ==> r == os
  {
    if os == [] then []
    else
      var rest := DropIncomplete(os[1..]);
      assert forall o :: o in os[1..] ==> o in os;
      assert os == [os[0]] + os[1..];
      if Complete(os[0]) then
        assert Ascending(os) ==> Ascending([os[0]] + rest) by {
          if Ascending(os) {
            assert Ascending(os[1..]);
            forall o | o in rest
              ensures Ordinal(os[0].month) <= Ordinal(o.month)
            {
              HeadFirst(os, o);
            }
            AscendingCons(os[0], rest);
          }
        }
        [os[0]] + rest
      else
        rest
  }

  /** `dropna` keeps every copy of a complete observation and no copy of an incomplete one. */
  lemma {:induction false} DropIncompleteCounts(os: seq<Observation>, o: Observation)
    ensures multiset(DropIncomplete(os))[o] == if Complete(o) then multiset(os)[o] else 0
  {
    if os != [] {
      DropIncompleteCounts(os[1..], o);
      assert os == [os[0]] + os[1..];
    }
  }

  /** Filtering distributes over putting an observation in front. */
  lemma DropIncompleteCons(o: Observation, os: seq<Observation>)
    ensures DropIncomplete([o] + os) == (if Complete(o) then [o] else []) + DropIncomplete(os)
  {
    assert ([o] + os)[1..] == os;
  }

  /** The canonical series invariant: ascending months, both amounts present, net is their sum. */
  predicate History(os: seq<Observation>) {
    && Ascending(os)
    && (forall k :: 0 <= k < |os| ==> Complete(os[k]) && os[k].net == Add(os[k].inflow, os[k].outflow))
    && (forall k :: 0 <= k < |os| ==> ShortYearRange(os[k].month))
  }

  /** Row `row` is kept as observation `o`: it has a month, both amounts, and `o` is what it gives. */
  predicate Yields(row: Row, monthAt: nat, inflowAt: nat, outflowAt: nat, parseNumber: string -> Num, o: Observation) {
    && ParseCell(CellAt(row, monthAt)) == Some(o.month)
    && o == Observe(Dated(o.month, row), inflowAt, outflowAt, parseNumber)
    && Complete(o)
  }

  /**
   * Lines 46-56 once the three columns are found at `monthAt`, `inflowAt` and
   * `outflowAt`: the month-bearing rows, sorted by month, coerced, and
   * filtered to those with both amounts.
   */
  function CleanRows(rows: seq<Row>, monthAt: nat, inflowAt: nat, outflowAt: nat, parseNumber: string -> Num): (os: seq<Observation>)
    ensures Ascending(os)
    ensures forall k :: 0 <= k < |os| ==> Complete(os[k]) && os[k].net == Add(os[k].inflow, os[k].outflow)
  {
    DropIncomplete(Coerce(SortByMonth(KeepDated(rows, ParseMonths(rows, monthAt))), inflowAt, outflowAt, parseNumber))
  }

  /** The cleaned rows form a history whose months all lie in the `%y` range. */
  lemma CleanRowsIsHistory(rows: seq<Row>, monthAt: nat, inflowAt: nat, outflowAt: nat, parseNumber: string -> Num)
    ensures History(CleanRows(rows, monthAt, inflowAt, outflowAt, parseNumber))
  {
    var os := CleanRows(rows, monthAt, inflowAt, outflowAt, parseNumber);
    forall k | 0 <= k < |os|
      ensures ShortYearRange(os[k].month)
    {
      KeptObservationHasRow(rows, monthAt, inflowAt, outflowAt, parseNumber, os[k]);
    }
  }

  /**
   * An observation is kept exactly when some uploaded row yields it: the row's
   * month parses under `%y-%b`, both of its amounts are present, and the
   * observation carries that month, the two amounts and their sum.
   */
  lemma CleanRowsRetains(rows: seq<Row>, monthAt: nat, inflowAt: nat, outflowAt: nat, parseNumber: string -> Num, o: Observation)
    ensures o in CleanRows(rows, monthAt, inflowAt, outflowAt, parseNumber)
            <==> exists k :: 0 <= k < |rows| && Yields(rows[k], monthAt, inflowAt, outflowAt, parseNumber, o)
  {
    if o in CleanRows(rows, monthAt, inflowAt, outflowAt, parseNumber) {
      KeptObservationHasRow(rows, monthAt, inflowAt, outflowAt, parseNumber, o);
    }
    if exists k :: 0 <= k < |rows| && Yields(rows[k], monthAt, inflowAt, outflowAt, parseNumber, o) {
      var k :| 0 <= k < |rows| && Yields(rows[k], monthAt, inflowAt, outflowAt, parseNumber, o);
      YieldingRowIsKept(rows, monthAt, inflowAt, outflowAt, parseNumber, k, o);
    }
  }

  lemma KeptObservationHasRow(rows: seq<Row>, monthAt: nat, inflowAt: nat, outflowAt: nat, parseNumber: string -> Num, o: Observation)
    requires o in CleanRows(rows, monthAt, inflowAt, outflowAt, parseNumber)
    ensures exists k :: 0 <= k < |rows| && Yields(rows[k], monthAt, inflowAt, outflowAt, parseNumber, o)
  {
    var ms := ParseMonths(rows, monthAt);
    var kept := KeepDated(rows, ms);
    var dated := SortByMonth(kept);
    var os := Coerce(dated, inflowAt, outflowAt, parseNumber);
    var j :| 0 <= j < |os| && os[j] == o;
    SortedMembers(kept, dated[j]);
    var k :| 0 <= k < |rows| && ms[k] == Some(dated[j].month) && rows[k] == dated[j].row;
    assert dated[j] == Dated(o.month, rows[k]);
    assert Yields(rows[k], monthAt, inflowAt, outflowAt, parseNumber, o);
  }

  lemma YieldingRowIsKept(rows: seq<Row>, monthAt: nat, inflowAt: nat, outflowAt: nat, parseNumber: string -> Num, k: int, o: Observation)
    requires 0 <= k < |rows| && Yields(rows[k], monthAt, inflowAt, outflowAt, parseNumber, o)
    ensures o in CleanRows(rows, monthAt, inflowAt, outflowAt, parseNumber)
  {
    var ms := ParseMonths(rows, monthAt);
    var kept := KeepDated(rows, ms);
    var dated := SortByMonth(kept);
    var d := Dated(o.month, rows[k]);
    assert d in kept by {
      assert ms[k] == Some(d.month);
    }
    assert d in dated by {
      SortedMembers(kept, d);
    }
    CoercedMember(dated, inflowAt, outflowAt, parseNumber, d);
  }

  /** Every dated row's observation is among the coerced rows. */
  lemma CoercedMember(ds: seq<Dated>, inflowAt: nat, outflowAt: nat, parseNumber: string -> Num, d: Dated)
    requires d in ds
    ensures Observe(d, inflowAt, outflowAt, parseNumber) in Coerce(ds, inflowAt, outflowAt, parseNumber)
  {
    var j :| 0 <= j < |ds| && ds[j] == d;
    assert Coerce(ds, inflowAt, outflowAt, parseNumber)[j] == Observe(d, inflowAt, outflowAt, parseNumber);
  }

  /** The rows that survive the sort are the rows that had a month: the sort adds and loses none. */
  lemma SortedMembers(ds: seq<Dated>, d: Dated)
    ensures d in SortByMonth(ds) <==> d in ds
  {
    assert d in SortByMonth(ds) <==> d in multiset(SortByMonth(ds));
  }

  /** The number of uploaded rows that yield observation `o`. */
  function YieldCount(rows: seq<Row>, monthAt: nat, inflowAt: nat, outflowAt: nat, parseNumber: string -> Num, o: Observation): nat
    decreases |rows|
  {
    if rows == [] then 0
    else (if Yields(rows[0], monthAt, inflowAt, outflowAt, parseNumber, o) then 1 else 0)
         + YieldCount(rows[1..], monthAt, inflowAt, outflowAt, parseNumber, o)
  }

  /** A row that survives lines 46-56: its month parses and both of its amounts are present. */
  predicate Usable(row: Row, monthAt: nat, inflowAt: nat, outflowAt: nat, parseNumber: string -> Num) {
    && ParseCell(CellAt(row, monthAt)).Some?
    && Present(ToNumeric(CellAt(row, inflowAt), parseNumber))
    && Present(ToNumeric(CellAt(row, outflowAt), parseNumber))
  }

  /** The number of usable uploaded rows. */
  function UsableCount(rows: seq<Row>, monthAt: nat, inflowAt: nat, outflowAt: nat, parseNumber: string -> Num): (n: nat)
    ensures n <= |rows|
    ensures (forall k :: 0 <= k < |rows| ==> Usable(rows[k], monthAt, inflowAt, outflowAt, parseNumber)) ==> n == |rows|
    decreases |rows|
  {
    if rows == [] then 0
    else (if Usable(rows[0], monthAt, inflowAt, outflowAt, parseNumber) then 1 else 0)
         + UsableCount(rows[1..], monthAt, inflowAt, outflowAt, parseNumber)
  }

  /** No row yields an observation with a missing amount. */
  lemma {:induction false} IncompleteNeverYielded(rows: seq<Row>, monthAt: nat, inflowAt: nat, outflowAt: nat,
                                                  parseNumber: string -> Num, o: Observation)
    requires !Complete(o)
    ensures YieldCount(rows, monthAt, inflowAt, outflowAt, parseNumber, o) == 0
    decreases |rows|
  {
    if rows != [] {
      IncompleteNeverYielded(rows[1..], monthAt, inflowAt, outflowAt, parseNumber, o);
    }
  }

  /** A row yields `o` exactly when its month `m` parsed and its observation is `o`, complete. */
  lemma YieldsParsed(row: Row, m: Option<YearMonth>, monthAt: nat, inflowAt: nat, outflowAt: nat,
                     parseNumber: string -> Num, o: Observation)
    requires m == ParseCell(CellAt(row, monthAt))
    ensures Yields(row, monthAt, inflowAt, outflowAt, parseNumber, o)
            <==> m.Some? && Complete(o) && Observe(Dated(m.value, row), inflowAt, outflowAt, parseNumber) == o
  {
  }

  /** Dropping undated rows and coercing counts each complete observation as often as rows yield it. */
  lemma {:induction false} KeptCoercedCounts(rows: seq<Row>, ms: seq<Option<YearMonth>>, monthAt: nat, inflowAt: nat, outflowAt: nat,
                                             parseNumber: string -> Num, o: Observation)
    requires |rows| == |ms|
    requires forall k :: 0 <= k < |rows| ==> ms[k] == ParseCell(CellAt(rows[k], monthAt))
    requires Complete(o)
    ensures multiset(Coerce(KeepDated(rows, ms), inflowAt, outflowAt, parseNumber))[o]
            == YieldCount(rows, monthAt, inflowAt, outflowAt, parseNumber, o)
    decreases |rows|
  {
    if rows != [] {
      assert forall k :: 0 <= k < |rows| - 1 ==> ms[1..][k] == ParseCell(CellAt(rows[1..][k], monthAt));
      KeptCoercedCounts(rows[1..], ms[1..], monthAt, inflowAt, outflowAt, parseNumber, o);
      var rest := KeepDated(rows[1..], ms[1..]);
      var tail := Coerce(rest, inflowAt, outflowAt, parseNumber);
      YieldsParsed(rows[0], ms[0], monthAt, inflowAt, outflowAt, parseNumber, o);
      if ms[0].Some? {
        var d := Dated(ms[0].value, rows[0]);
        assert KeepDated(rows, ms) == [d] + rest;
        CoerceCons(d, rest, inflowAt, outflowAt, parseNumber);
        assert multiset([Observe(d, inflowAt, outflowAt, parseNumber)] + tail)[o]
               == (if Observe(d, inflowAt, outflowAt, parseNumber) == o then 1 else 0) + multiset(tail)[o];
      } else {
        assert KeepDated(rows, ms) == rest;
      }
    }
  }

  /** Dropping undated rows, coercing and dropping incomplete ones keeps one observation per usable row. */
  lemma {:induction false} KeptUsableCount(rows: seq<Row>, ms: seq<Option<YearMonth>>, monthAt: nat, inflowAt: nat, outflowAt: nat,
                                           parseNumber: string -> Num)
    requires |rows| == |ms|
    requires forall k :: 0 <= k < |rows| ==> ms[k] == ParseCell(CellAt(rows[k], monthAt))
    ensures |DropIncomplete(Coerce(KeepDated(rows, ms), inflowAt, outflowAt, parseNumber))|
            == UsableCount(rows, monthAt, inflowAt, outflowAt, parseNumber)
    decreases |rows|
  {
    if rows != [] {
      assert forall k :: 0 <= k < |rows| - 1 ==> ms[1..][k] == ParseCell(CellAt(rows[1..][k], monthAt));
      KeptUsableCount(rows[1..], ms[1..], monthAt, inflowAt, outflowAt, parseNumber);
      var rest := KeepDated(rows[1..], ms[1..]);
      var tail := DropIncomplete(Coerce(rest, inflowAt, outflowAt, parseNumber));
      if ms[0].Some? {
        var d := Dated(ms[0].value, rows[0]);
        var o := Observe(d, inflowAt, outflowAt, parseNumber);
        assert KeepDated(rows, ms) == [d] + rest;
        CoerceCons(d, rest, inflowAt, outflowAt, parseNumber);
        DropIncompleteCons(o, Coerce(rest, inflowAt, outflowAt, parseNumber));
        assert Usable(rows[0], monthAt, inflowAt, outflowAt, parseNumber) <==> Complete(o);
        assert |(if Complete(o) then [o] else []) + tail| == (if Complete(o) then 1 else 0) + |tail|;
      } else {
        assert KeepDated(rows, ms) == rest;
        assert !Usable(rows[0], monthAt, inflowAt, outflowAt, parseNumber);
      }
    }
  }

  /**
   * Every copy counts: an observation occurs in the cleaned history exactly as
   * many times as uploaded rows yield it.
   */
  lemma CleanRowsCounts(rows: seq<Row>, monthAt: nat, inflowAt: nat, outflowAt: nat, parseNumber: string -> Num, o: Observation)
    ensures multiset(CleanRows(rows, monthAt, inflowAt, outflowAt, parseNumber))[o]
            == YieldCount(rows, monthAt, inflowAt, outflowAt, parseNumber, o)
  {
    var ms := ParseMonths(rows, monthAt);
    var kept := KeepDated(rows, ms);
    DropIncompleteCounts(Coerce(SortByMonth(kept), inflowAt, outflowAt, parseNumber), o);
    if Complete(o) {
      CoerceSortCounts(kept, inflowAt, outflowAt, parseNumber);
      KeptCoercedCounts(rows, ms, monthAt, inflowAt, outflowAt, parseNumber, o);
    } else {
      IncompleteNeverYielded(rows, monthAt, inflowAt, outflowAt, parseNumber, o);
    }
  }

  /** The cleaned history has one row per usable uploaded row: this is `rows_received`. */
  lemma CleanRowsLength(rows: seq<Row>, monthAt: nat, inflowAt: nat, outflowAt: nat, parseNumber: string -> Num)
    ensures |CleanRows(rows, monthAt, inflowAt, outflowAt, parseNumber)| == UsableCount(rows, monthAt, inflowAt, outflowAt, parseNumber)
  {
    var ms := ParseMonths(rows, monthAt);
    var kept := KeepDated(rows, ms);
    var sorted := DropIncomplete(Coerce(SortByMonth(kept), inflowAt, outflowAt, parseNumber));
    var unsorted := DropIncomplete(Coerce(kept, inflowAt, outflowAt, parseNumber));
    CoerceSortCounts(kept, inflowAt, outflowAt, parseNumber);
    forall o
      ensures multiset(sorted)[o] == multiset(unsorted)[o]
    {
      DropIncompleteCounts(Coerce(SortByMonth(kept), inflowAt, outflowAt, parseNumber), o);
      DropIncompleteCounts(Coerce(kept, inflowAt, outflowAt, parseNumber), o);
    }
    assert multiset(sorted) == multiset(unsorted);
    assert |sorted| == |multiset(sorted)| == |multiset(unsorted)| == |unsorted|;
    KeptUsableCount(rows, ms, monthAt, inflowAt, outflowAt, parseNumber);
  }

  /**
   * The cleaned series, or the exception lines 32-56 raise: a `KeyError` for
   * a missing column; for a duplicated `Month`, the attribute error of the
   * `tolist` on line 43; for a duplicated `Inflow` or `Outflow`, the type
   * error of `to_numeric` on lines 53-54.
   */
  function Tidy(t: RawTable, parseNumber: string -> Num): (r: Result<seq<Observation>, Failure>)
    ensures r.Err? ==> r.error.Raised?
    ensures r.Ok? ==> History(r.value)
    ensures var n := Normalize(t.headers);
            r.Ok? <==> Find(n, "Month").At? && Find(n, "Inflow").At? && Find(n, "Outflow").At?
    ensures var n := Normalize(t.headers);
            r.Ok? ==> r.value == CleanRows(t.rows, Find(n, "Month").index, Find(n, "Inflow").index, Find(n, "Outflow").index, parseNumber)
    ensures var n := Normalize(t.headers);
            && (Find(n, "Month") == Absent ==> r == Err(Raised(KeyErrorMessage("Month"))))
            && (Find(n, "Month") == Repeated ==> r == Err(Raised(FrameHasNoToList)))
    ensures var n := Normalize(t.headers);
            Find(n, "Month").At? ==>
              && (Find(n, "Inflow") == Absent ==> r == Err(Raised(KeyErrorMessage("Inflow"))))
              && (Find(n, "Inflow") == Repeated ==> r == Err(Raised(ToNumericNeedsSeries)))
    ensures var n := Normalize(t.headers);
            Find(n, "Month").At? && Find(n, "Inflow").At? ==>
              && (Find(n, "Outflow") == Absent ==> r == Err(Raised(KeyErrorMessage("Outflow"))))
              && (Find(n, "Outflow") == Repeated ==> r == Err(Raised(ToNumericNeedsSeries)))
  {
    var headers := Normalize(t.headers);
    match Find(headers, "Month")
    case Absent => Err(Raised(KeyErrorMessage("Month")))
    case Repeated => Err(Raised(FrameHasNoToList))
    case At(m) =>
      match Find(headers, "Inflow")
      case Absent => Err(Raised(KeyErrorMessage("Inflow")))
      case Repeated => Err(Raised(ToNumericNeedsSeries))
      case At(i) =>
        match Find(headers, "Outflow")
        case Absent => Err(Raised(KeyErrorMessage("Outflow")))
        case Repeated => Err(Raised(ToNumericNeedsSeries))
        case At(u) =>
          CleanRowsIsHistory(t.rows, m, i, u, parseNumber);
          Ok(CleanRows(t.rows, m, i, u, parseNumber))
  }

  /**
   * When no month cell parses under `%y-%b`, nothing survives cleaning: the
   * fallback recovers no month, so every row is dropped at line 50.
   */
  lemma NoMonthNoRows(rows: seq<Row>, monthAt: nat, inflowAt: nat, outflowAt: nat, parseNumber: string -> Num)
    requires forall k :: 0 <= k < |rows| ==> ParseCell(CellAt(rows[k], monthAt)).None?
    ensures CleanRows(rows, monthAt, inflowAt, outflowAt, parseNumber) == []
  {
    FallbackRecoversNothing(rows, monthAt);
    assert KeepDated(rows, ParseMonths(rows, monthAt)) == [];
  }
}
