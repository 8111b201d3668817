/**
 * Calendar months as the pipeline sees them. Every date it handles is the
 * first day of a month: `%y-%b` parses to day 1, and the forecast index uses
 * month-start frequency. So a date is a (year, month) pair, ordered by the
 * number of months since year 0.
 */
module Calendar {
  import opened Wrappers

  type MonthOfYear = m: int | 1 <= m <= 12 witness 1

  /** The first day of `month` in `year`. */
  datatype YearMonth = YearMonth(year: int, month: MonthOfYear)

  /** Months elapsed since January of year 0; comparing ordinals compares the dates. */
  function Ordinal(ym: YearMonth): int {
    ym.year * 12 + (ym.month - 1)
  }

  /** Two first-of-month dates with the same ordinal are the same date. */
  lemma OrdinalInjective(a: YearMonth, b: YearMonth)
    requires Ordinal(a) == Ordinal(b)
    ensures a == b
  {
  }

  /** The first day of the following month (one `MonthBegin` step), rolling December into January. */
  function Next(ym: YearMonth): (r: YearMonth)
    ensures Ordinal(r) == Ordinal(ym) + 1
  {
    if ym.month == 12 then YearMonth(ym.year + 1, 1) else YearMonth(ym.year, ym.month + 1)
  }

  /** `n` consecutive month starts beginning at `start`: a month-start date range. */
  function MonthsFrom(start: YearMonth, n: nat): (r: seq<YearMonth>)
    ensures |r| == n
    ensures forall k :: 0 <= k < n ==> Ordinal(r[k]) == Ordinal(start) + k
    decreases n
  {
    if n == 0 then [] else [start] + MonthsFrom(Next(start), n - 1)
  }

  /** The forecast horizon is fixed at twelve periods. */
  const HorizonLength: nat := 12

  /** The twelve month starts that follow `last`, the final historical month. */
  function Horizon(last: YearMonth): (r: seq<YearMonth>)
    ensures |r| == HorizonLength
    ensures forall k :: 0 <= k < |r| ==> Ordinal(r[k]) == Ordinal(last) + 1 + k
    ensures forall k :: 0 <= k < |r| ==> last.year <= r[k].year <= last.year + 1
  {
    var r := MonthsFrom(Next(last), HorizonLength);
    assert forall k :: 0 <= k < |r| ==> last.year <= r[k].year <= last.year + 1 by {
      forall k | 0 <= k < |r|
        ensures last.year <= r[k].year <= last.year + 1
      {
        assert Ordinal(r[k]) == Ordinal(last) + 1 + k;
      }
    }
    r
  }

  /**
   * The horizon starts with the month after `last`, and each month is
   * followed by its successor (December by January of the next year).
   */
  lemma HorizonConsecutive(last: YearMonth)
    ensures Horizon(last)[0] == Next(last)
    ensures forall k :: 0 <= k < HorizonLength - 1 ==> Horizon(last)[k + 1] == Next(Horizon(last)[k])
  {
    var h := Horizon(last);
    OrdinalInjective(h[0], Next(last));
    forall k | 0 <= k < HorizonLength - 1
      ensures h[k + 1] == Next(h[k])
    {
      OrdinalInjective(h[k + 1], Next(h[k]));
    }
  }

  // ---- text forms of a month ----

  const MonthAbbreviations: seq<string> :=
    ["Jan", "Feb", "Mar", "Apr", "May", "Jun", "Jul", "Aug", "Sep", "Oct", "Nov", "Dec"]

  /** `%b` in the C/English locale. */
  function Abbreviation(m: MonthOfYear): string {
    MonthAbbreviations[m - 1]
  }

  predicate IsDigit(c: char) {
    '0' <= c <= '9'
  }

  function DigitChar(d: int): (c: char)
    requires 0 <= d <= 9
    ensures IsDigit(c)
  {
    ('0' as int + d) as char
  }

  function DigitValue(c: char): (d: int)
    requires IsDigit(c)
    ensures 0 <= d <= 9 && DigitChar(d) == c
  {
    c as int - '0' as int
  }

  function Pow10(w: nat): (p: nat)
    ensures p >= 1
  {
    if w == 0 then 1 else 10 * Pow10(w - 1)
  }

  /** `n` written with exactly `width` decimal digits, zero-padded on the left. */
  function Numeral(n: nat, width: nat): (s: string)
    ensures |s| == width
    ensures forall k :: 0 <= k < |s| ==> IsDigit(s[k])
  {
    if width == 0 then [] else Numeral(n / 10, width - 1) + [DigitChar(n % 10)]
  }

  /** The number a string of decimal digits denotes. */
  function NumeralValue(s: string): (n: nat)
    requires forall k :: 0 <= k < |s| ==> IsDigit(s[k])
    ensures n < Pow10(|s|)
  {
    if s == [] then 0 else 10 * NumeralValue(s[..|s| - 1]) + DigitValue(s[|s| - 1])
  }

  /** Reading back a numeral gives the number it was written from, when it fits the width. */
  lemma {:induction false} NumeralRoundTrip(n: nat, width: nat)
    requires n < Pow10(width)
    ensures NumeralValue(Numeral(n, width)) == n
  {
    if width > 0 {
      var s := Numeral(n, width);
      assert s[..width - 1] == Numeral(n / 10, width - 1);
      NumeralRoundTrip(n / 10, width - 1);
    }
  }

  /** A number written with a last decimal digit determines both the digit and the rest. */
  lemma SplitDecimal(x: int, d: int, y: int, e: int)
    requires 0 <= d <= 9 && 0 <= e <= 9 && 10 * x + d == 10 * y + e
    ensures x == y && d == e
  {
  }

  /** Digit strings of the same width that denote the same number are the same string. */
  lemma {:induction false} NumeralValueInjective(a: string, b: string)
    requires |a| == |b|
    requires forall k :: 0 <= k < |a| ==> IsDigit(a[k])
    requires forall k :: 0 <= k < |b| ==> IsDigit(b[k])
    requires NumeralValue(a) == NumeralValue(b)
    ensures a == b
  {
    if a != [] {
      var n := |a|;
      SplitDecimal(NumeralValue(a[..n - 1]), DigitValue(a[n - 1]), NumeralValue(b[..n - 1]), DigitValue(b[n - 1]));
      NumeralValueInjective(a[..n - 1], b[..n - 1]);
      assert a == a[..n - 1] + [a[n - 1]];
      assert b == b[..n - 1] + [b[n - 1]];
    }
  }

  /** ASCII lower-casing, the case-insensitive comparison month names are matched with. */
  function LowerAscii(c: char): char {
    if 'A' <= c <= 'Z' then (c as int + 32) as char else c
  }

  function Fold(s: string): (r: string)
    ensures |r| == |s|
    ensures forall k :: 0 <= k < |s| ==> r[k] == LowerAscii(s[k])
  {
    seq(|s|, k requires 0 <= k < |s| => LowerAscii(s[k]))
  }

  const FoldedAbbreviations: seq<string> :=
    ["jan", "feb", "mar", "apr", "may", "jun", "jul", "aug", "sep", "oct", "nov", "dec"]

  lemma FoldAbbreviation(m: MonthOfYear)
    ensures Fold(Abbreviation(m)) == FoldedAbbreviations[m - 1]
  {
    var a, f := Abbreviation(m), FoldedAbbreviations[m - 1];
    assert |a| == 3 == |f|;
    assert LowerAscii(a[0]) == f[0] && LowerAscii(a[1]) == f[1] && LowerAscii(a[2]) == f[2];
  }

  /** No two months share an abbreviation, whatever the letter case. */
  lemma FoldedAbbreviationsDistinct(i: int, j: int)
    requires 0 <= i < 12 && 0 <= j < 12
    requires FoldedAbbreviations[i] == FoldedAbbreviations[j]
    ensures i == j
  {
    assert FoldedAbbreviations[i][1] == FoldedAbbreviations[j][1];
    assert FoldedAbbreviations[i][2] == FoldedAbbreviations[j][2];
  }

  /** The month whose abbreviation is `folded` (already lower-cased), searching from month `m` on. */
  function MonthFrom(folded: string, m: MonthOfYear): (r: Option<MonthOfYear>)
    ensures r.Some? ==> m <= r.value && folded == FoldedAbbreviations[r.value - 1]
    ensures r.None? ==> forall k :: m - 1 <= k < 12 ==> folded != FoldedAbbreviations[k]
    decreases 12 - m
  {
    if folded == FoldedAbbreviations[m - 1] then Some(m)
    else if m == 12 then None
    else MonthFrom(folded, m + 1)
  }

  /** `%b` matched case-insensitively: the month whose abbreviation `w` spells, if any. */
  function MonthNamed(w: string): (r: Option<MonthOfYear>)
    ensures r.Some? ==> Fold(w) == Fold(Abbreviation(r.value))
    ensures r.None? ==> forall n: MonthOfYear :: Fold(w) != Fold(Abbreviation(n))
  {
    var r := MonthFrom(Fold(w), 1);
    if r.Some? then
      FoldAbbreviation(r.value);
      r
    else
      assert forall n: MonthOfYear :: Fold(Abbreviation(n)) == FoldedAbbreviations[n - 1] by {
        forall n: MonthOfYear { FoldAbbreviation(n); }
      }
      r
  }

  /** Inclusive year range that `%y` can produce. */
  predicate ShortYearRange(ym: YearMonth) {
    1969 <= ym.year <= 2068
  }

  /** `%y`: 00-68 are read as 2000-2068 and 69-99 as 1969-1999. */
  function CenturyYear(yy: int): (y: int)
    requires 0 <= yy <= 99
    ensures 1969 <= y <= 2068 && y % 100 == yy
  {
    if yy <= 68 then 2000 + yy else 1900 + yy
  }

  /**
   * The primary month format `%y-%b` (e.g. "24-Jan"): exactly two digits, a
   * hyphen and a month abbreviation in any letter case, the whole string
   * consumed; the date is the first of that month.
   */
  function ParseShort(s: string): (r: Option<YearMonth>)
    ensures r.Some? ==> ShortYearRange(r.value)
  {
    if |s| == 6 && IsDigit(s[0]) && IsDigit(s[1]) && s[2] == '-' then
      match MonthNamed(s[3..])
      case Some(m) => Some(YearMonth(CenturyYear(NumeralValue(s[..2])), m))
      case None => None
    else
      None
  }

  /** The canonical spelling of a month in the `%y-%b` format. */
  function FormatShort(ym: YearMonth): (s: string)
    requires ShortYearRange(ym)
    ensures |s| == 6
  {
    Numeral(ym.year % 100, 2) + "-" + Abbreviation(ym.month)
  }

  /** Folding the case of a concatenation folds each part. */
  lemma FoldConcat(a: string, b: string)
    ensures Fold(a + b) == Fold(a) + Fold(b)
  {
  }

  lemma FoldDigits(s: string)
    requires forall k :: 0 <= k < |s| ==> IsDigit(s[k])
    ensures Fold(s) == s
  {
  }

  /** A string that parses spells its month in the `%y-%b` format, up to letter case. */
  lemma ParseShortSound(s: string, ym: YearMonth)
    requires ParseShort(s) == Some(ym)
    ensures ShortYearRange(ym) && Fold(s) == Fold(FormatShort(ym))
  {
    var m := MonthNamed(s[3..]).value;
    assert m == ym.month;
    var yy := NumeralValue(s[..2]);
    assert ym.year % 100 == yy;
    NumeralRoundTrip(yy, 2);
    NumeralValueInjective(Numeral(yy, 2), s[..2]);
    assert s == s[..2] + "-" + s[3..];
    FoldConcat(s[..2] + "-", s[3..]);
    FoldConcat(s[..2], "-");
    FoldConcat(Numeral(yy, 2) + "-", Abbreviation(m));
    FoldConcat(Numeral(yy, 2), "-");
  }

  /** `%y` reads the last two digits of a year between 1969 and 2068 back as that year. */
  lemma CenturyOfShortYear(ym: YearMonth)
    requires ShortYearRange(ym)
    ensures CenturyYear(ym.year % 100) == ym.year
  {
    if ym.year >= 2000 {
      assert ym.year % 100 == ym.year - 2000;
    } else {
      assert ym.year % 100 == ym.year - 1900;
    }
  }

  /** A string spelling a month in the `%y-%b` format, in any letter case, parses to it. */
  lemma ParseShortComplete(s: string, ym: YearMonth)
    requires ShortYearRange(ym) && Fold(s) == Fold(FormatShort(ym))
    ensures ParseShort(s) == Some(ym)
  {
    var yy := ym.year % 100;
    var d, a := Numeral(yy, 2), Abbreviation(ym.month);
    var f := FormatShort(ym);
    assert f[0] == d[0] && f[1] == d[1] && f[2] == '-' && f[3..] == a;
    assert |s| == 6;
    assert forall k :: 0 <= k < 6 ==> LowerAscii(s[k]) == LowerAscii(f[k]);
    assert s[0] == d[0] && s[1] == d[1] && s[2] == '-';
    assert s[..2] == d;
    assert Fold(s[3..]) == Fold(a) by {
      assert forall k :: 0 <= k < 3 ==> s[3..][k] == s[k + 3] && a[k] == f[k + 3];
    }
    var m := MonthNamed(s[3..]);
    assert m == Some(ym.month) by {
      if m.Some? {
        FoldAbbreviation(m.value);
        FoldAbbreviation(ym.month);
        FoldedAbbreviationsDistinct(m.value as int - 1, ym.month as int - 1);
      }
    }
    NumeralRoundTrip(yy, 2);
    CenturyOfShortYear(ym);
    assert IsDigit(s[0]) && IsDigit(s[1]);
  }

  /** Formatting then parsing gives back the month. */
  lemma ParseFormatShort(ym: YearMonth)
    requires ShortYearRange(ym)
    ensures ParseShort(FormatShort(ym)) == Some(ym)
  {
    ParseShortComplete(FormatShort(ym), ym);
  }

  /** Four-digit `%Y` for the years that can occur (1969 to 2069). */
  predicate FourDigitYear(ym: YearMonth) {
    1000 <= ym.year <= 9999
  }

  /** The display format `%b-%Y`, e.g. "Apr-2024". */
  function Display(ym: YearMonth): (s: string)
    requires FourDigitYear(ym)
    ensures |s| == 8 && s[3] == '-'
    ensures s[..3] == Abbreviation(ym.month) && s[4..] == Numeral(ym.year, 4)
  {
    Abbreviation(ym.month) + "-" + Numeral(ym.year, 4)
  }

  /** Different months are displayed differently: the display string identifies the month. */
  lemma DisplayInjective(a: YearMonth, b: YearMonth)
    requires FourDigitYear(a) && FourDigitYear(b)
    requires Display(a) == Display(b)
    ensures a == b
  {
    var s, t := Display(a), Display(b);
    assert Abbreviation(a.month) == s[..3] == t[..3] == Abbreviation(b.month);
    assert a.month == b.month by {
      FoldAbbreviation(a.month);
      FoldAbbreviation(b.month);
      FoldedAbbreviationsDistinct(a.month as int - 1, b.month as int - 1);
    }
    assert Numeral(a.year, 4) == s[4..] == t[4..] == Numeral(b.year, 4);
    NumeralRoundTrip(a.year, 4);
    NumeralRoundTrip(b.year, 4);
  }

  lemma DisplayApril2024()
    ensures Display(YearMonth(2024, 4)) == "Apr-2024"
  {
    assert Numeral(2024, 4) == "2024";
  }

  lemma DisplayMarch2025()
    ensures Display(YearMonth(2025, 3)) == "Mar-2025"
  {
    assert Numeral(2025, 4) == "2025";
  }

  /** The horizon after March 2024 runs from "Apr-2024" to "Mar-2025". */
  lemma HorizonAfterMarch2024(last: YearMonth)
    requires last == YearMonth(2024, 3)
    ensures Display(Horizon(last)[0]) == "Apr-2024"
    ensures Display(Horizon(last)[11]) == "Mar-2025"
  {
    var h := Horizon(last);
    assert h[0] == YearMonth(2024, 4) by {
      OrdinalInjective(h[0], YearMonth(2024, 4));
    }
    assert h[11] == YearMonth(2025, 3) by {
      OrdinalInjective(h[11], YearMonth(2025, 3));
    }
    DisplayApril2024();
    DisplayMarch2025();
  }

  /** "24-Jan", "24-Feb", ... "24-Dec" are the first of each month of 2024. */
  lemma ParseShort2024(s: string, m: MonthOfYear)
    requires s == "24-" + Abbreviation(m)
    ensures ParseShort(s) == Some(YearMonth(2024, m))
  {
    assert Numeral(24, 2) == "24";
    assert FormatShort(YearMonth(2024, m)) == s;
    ParseFormatShort(YearMonth(2024, m));
  }
}
