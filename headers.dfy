/**
 * Column-header normalisation: every header is stripped of surrounding
 * whitespace, then four spellings are renamed to the canonical schema
 * `Month`, `Inflow`, `Outflow`, `Net_Cashflow`; and column lookup by name.
 */
module Headers {

  /** The characters Python's `str.strip()` removes: those for which `str.isspace()` holds. */
  predicate IsSpace(c: char) {
    || '\t' <= c <= '\r'
    || '\U{1C}' <= c <= ' '
    || c == '\U{85}' || c == '\U{A0}' || c == '\U{1680}'
    || '\U{2000}' <= c <= '\U{200A}'
    || c == '\U{2028}' || c == '\U{2029}' || c == '\U{202F}' || c == '\U{205F}' || c == '\U{3000}'
  }

  /** Every character of `s` from position `lo` up to (not including) `hi` is whitespace. */
  predicate SpaceBetween(s: string, lo: int, hi: int)
    requires 0 <= lo <= hi <= |s|
  {
    forall k :: lo <= k < hi ==> IsSpace(s[k])
  }

  /** A header with no whitespace at either end. */
  predicate Trimmed(s: string) {
    s == [] || (!IsSpace(s[0]) && !IsSpace(s[|s| - 1]))
  }

  /** Where the leading whitespace run that starts at `i` ends: the first non-space position at or after `i`. */
  function SkipSpace(s: string, i: nat): (n: nat)
    requires i <= |s|
    ensures i <= n <= |s| && SpaceBetween(s, i, n)
    ensures n == |s| || !IsSpace(s[n])
    decreases |s| - i
  {
    if i < |s| && IsSpace(s[i]) then SkipSpace(s, i + 1) else i
  }

  /** Where the trailing whitespace run that ends at `j` begins, looking no further left than `lo`. */
  function SkipSpaceBack(s: string, lo: nat, j: nat): (n: nat)
    requires lo <= j <= |s|
    ensures lo <= n <= j && SpaceBetween(s, n, j)
    ensures n == lo || !IsSpace(s[n - 1])
    decreases j
  {
    if lo < j && IsSpace(s[j - 1]) then SkipSpaceBack(s, lo, j - 1) else j
  }

  /**
   * `strip()`: the infix of `s` left between its leading and its trailing
   * whitespace. Only whitespace is removed, and the result has none at either end.
   */
  function Strip(s: string): (r: string)
    ensures Trimmed(r)
    ensures exists lo, hi :: 0 <= lo <= hi <= |s| && r == s[lo..hi] && SpaceBetween(s, 0, lo) && SpaceBetween(s, hi, |s|)
  {
    var lo := SkipSpace(s, 0);
    var hi := SkipSpaceBack(s, lo, |s|);
    s[lo..hi]
  }

  /** Stripping changes exactly the headers that have whitespace at an end. */
  lemma StripFixesTrimmed(s: string)
    ensures Strip(s) == s <==> Trimmed(s)
  {
    if Trimmed(s) && s != [] {
      assert SkipSpace(s, 0) == 0;
      assert SkipSpaceBack(s, 0, |s|) == |s|;
      assert s[0..|s|] == s;
    }
  }

  /** The four spellings the exact-match synonym table renames (after stripping). */
  predicate IsSynonym(h: string) {
    h == "Months" || h == "Cash Inflow" || h == "Cash Outflow" || h == "Net Cash Flow"
  }

  /** A `rename` with the synonym table: a header not in the table is kept as it is. */
  function Rename(h: string): string {
    if h == "Months" then "Month"
    else if h == "Cash Inflow" then "Inflow"
    else if h == "Cash Outflow" then "Outflow"
    else if h == "Net Cash Flow" then "Net_Cashflow"
    else h
  }

  predicate IsAsciiLetter(c: char) {
    'A' <= c <= 'Z' || 'a' <= c <= 'z'
  }

  /**
   * Each canonical name is reached from exactly two spellings, itself and its
   * synonym; every header outside the table is kept unchanged.
   */
  lemma RenameCases(h: string)
    ensures Rename(h) == "Month" <==> h == "Month" || h == "Months"
    ensures Rename(h) == "Inflow" <==> h == "Inflow" || h == "Cash Inflow"
    ensures Rename(h) == "Outflow" <==> h == "Outflow" || h == "Cash Outflow"
    ensures Rename(h) == "Net_Cashflow" <==> h == "Net_Cashflow" || h == "Net Cash Flow"
    ensures !IsSynonym(h) ==> Rename(h) == h
  {
    if h == "Months" {
      assert Rename(h) == "Month";
    } else if h == "Cash Inflow" {
      assert Rename(h) == "Inflow";
    } else if h == "Cash Outflow" {
      assert Rename(h) == "Outflow";
    } else if h == "Net Cash Flow" {
      assert Rename(h) == "Net_Cashflow";
    } else {
      assert Rename(h) == h;
    }
  }

  /** The canonical names a synonym is renamed to begin and end with letters. */
  lemma RenameKeepsTrimmed(h: string)
    requires Trimmed(h)
    ensures Trimmed(Rename(h))
  {
    var t := Rename(h);
    if IsSynonym(h) {
      assert IsAsciiLetter(t[0]) && IsAsciiLetter(t[|t| - 1]);
    }
  }

  /** The normalised headers, position by position; every one has no surrounding whitespace. */
  function Normalize(headers: seq<string>): (r: seq<string>)
    ensures |r| == |headers|
    ensures forall k :: 0 <= k < |r| ==> Trimmed(r[k])
  {
    var r := seq(|headers|, k requires 0 <= k < |headers| => Rename(Strip(headers[k])));
    assert forall k :: 0 <= k < |r| ==> Trimmed(r[k]) by {
      forall k | 0 <= k < |r| {
        RenameKeepsTrimmed(Strip(headers[k]));
      }
    }
    r
  }

  /** Position `k` of the normalised headers is the stripped, renamed header `k`. */
  lemma NormalizedHeader(headers: seq<string>, k: int)
    requires 0 <= k < |headers|
    ensures Normalize(headers)[k] == "Month" <==> Strip(headers[k]) == "Month" || Strip(headers[k]) == "Months"
    ensures Normalize(headers)[k] == "Inflow" <==> Strip(headers[k]) == "Inflow" || Strip(headers[k]) == "Cash Inflow"
    ensures Normalize(headers)[k] == "Outflow" <==> Strip(headers[k]) == "Outflow" || Strip(headers[k]) == "Cash Outflow"
    ensures Normalize(headers)[k] == "Net_Cashflow" <==> Strip(headers[k]) == "Net_Cashflow" || Strip(headers[k]) == "Net Cash Flow"
    ensures !IsSynonym(Strip(headers[k])) ==> Normalize(headers)[k] == Strip(headers[k])
  {
    RenameCases(Strip(headers[k]));
  }

  /** A renamed header is never itself a synonym, so renaming twice is renaming once. */
  lemma RenameSettles(h: string)
    ensures !IsSynonym(Rename(h))
  {
    var t := Rename(h);
    if h == "Months" {
      assert t == "Month";
    } else if h == "Cash Inflow" {
      assert t == "Inflow";
    } else if h == "Cash Outflow" {
      assert t == "Outflow";
    } else if h == "Net Cash Flow" {
      assert t == "Net_Cashflow";
    }
  }

  /** Normalising already-normalised headers changes nothing. */
  lemma NormalizeIdempotent(headers: seq<string>)
    ensures Normalize(Normalize(headers)) == Normalize(headers)
  {
    var n := Normalize(headers);
    forall k | 0 <= k < |n|
      ensures Normalize(n)[k] == n[k]
    {
      StripFixesTrimmed(n[k]);
      RenameSettles(Strip(headers[k]));
    }
  }

  /** Where a column name occurs among the headers: nowhere, once (at `index`), or more than once. */
  datatype Column = Absent | At(index: nat) | Repeated

  function Find(headers: seq<string>, name: string): (r: Column)
    ensures r == Absent <==> name !in headers
    ensures r.At? ==> r.index < |headers| && headers[r.index] == name
    ensures r.At? ==> forall k :: 0 <= k < |headers| && k != r.index ==> headers[k] != name
    ensures r == Repeated ==> exists i, j :: 0 <= i < j < |headers| && headers[i] == name && headers[j] == name
  {
    if headers == [] then Absent
    else
      match Find(headers[1..], name)
      case Absent => if headers[0] == name then At(0) else Absent
      case At(i) =>
        if headers[0] == name then
          assert headers[i + 1] == name;
          Repeated
        else
          At(i + 1)
      case Repeated =>
        assert exists i, j :: 1 <= i < j < |headers| && headers[i] == name && headers[j] == name by {
          var i, j :| 0 <= i < j < |headers[1..]| && headers[1..][i] == name && headers[1..][j] == name;
          assert headers[i + 1] == name && headers[j + 1] == name;
        }
        Repeated
  }

  /** A heading that begins and ends with a letter is left alone by `Strip`. */
  lemma StripLettered(h: string)
    requires |h| > 0 && IsAsciiLetter(h[0]) && IsAsciiLetter(h[|h| - 1])
    ensures Strip(h) == h
  {
    StripFixesTrimmed(h);
  }

  /** A header that begins and ends with a letter is only renamed. */
  lemma NormalizeLettered(headers: seq<string>, k: int)
    requires 0 <= k < |headers| && |headers[k]| > 0
    requires IsAsciiLetter(headers[k][0]) && IsAsciiLetter(headers[k][|headers[k]| - 1])
    ensures Normalize(headers)[k] == Rename(headers[k])
  {
    StripLettered(headers[k]);
  }

  /** Headers as a spreadsheet export writes them: `Months`, `Cash Inflow`, `Cash Outflow`. */
  predicate SpreadsheetHeaders(headers: seq<string>) {
    |headers| == 3 && headers[0] == "Months" && headers[1] == "Cash Inflow" && headers[2] == "Cash Outflow"
  }

  /** The spreadsheet headings become the canonical names. */
  lemma SpreadsheetHeadersNormalize(headers: seq<string>)
    requires SpreadsheetHeaders(headers)
    ensures var n := Normalize(headers);
      |n| == 3 && n[0] == "Month" && n[1] == "Inflow" && n[2] == "Outflow"
  {
    NormalizeLettered(headers, 0);
    NormalizeLettered(headers, 1);
    NormalizeLettered(headers, 2);
  }

  /** A name found at exactly one position is reported at that position. */
  lemma FindUnique(headers: seq<string>, name: string, i: nat)
    requires i < |headers| && headers[i] == name
    requires forall k :: 0 <= k < |headers| && k != i ==> headers[k] != name
    ensures Find(headers, name) == At(i)
  {
  }

  /** No two columns carry the same label. */
  predicate DistinctLabels(headers: seq<string>) {
    forall i, j :: 0 <= i < j < |headers| ==> headers[i] != headers[j]
  }

  /** The labels are distinct exactly when looking up each column's label finds that column alone. */
  lemma DistinctLabelsFound(headers: seq<string>)
    ensures DistinctLabels(headers) <==> forall k :: 0 <= k < |headers| ==> Find(headers, headers[k]) == At(k)
  {
    if DistinctLabels(headers) {
      forall k | 0 <= k < |headers|
        ensures Find(headers, headers[k]) == At(k)
      {
        FindUnique(headers, headers[k], k);
      }
    } else {
      var i, j :| 0 <= i < j < |headers| && headers[i] == headers[j];
      assert Find(headers, headers[j]) != At(j);
    }
  }

  /** Headers `Month`, `Inflow`, `Outflow`, in that order, give each column its own position. */
  lemma CanonicalColumns(n: seq<string>)
    requires |n| == 3 && n[0] == "Month" && n[1] == "Inflow" && n[2] == "Outflow"
    ensures Find(n, "Month") == At(0) && Find(n, "Inflow") == At(1) && Find(n, "Outflow") == At(2)
  {
    assert |n[0]| == 5 && |n[1]| == 6 && |n[2]| == 7;
    FindUnique(n, "Month", 0);
    FindUnique(n, "Inflow", 1);
    FindUnique(n, "Outflow", 2);
  }

  /** With spreadsheet headings, each canonical column is found once, in spreadsheet order. */
  lemma SpreadsheetColumns(headers: seq<string>)
    requires SpreadsheetHeaders(headers)
    ensures var n := Normalize(headers);
      Find(n, "Month") == At(0) && Find(n, "Inflow") == At(1) && Find(n, "Outflow") == At(2)
  {
    SpreadsheetHeadersNormalize(headers);
    CanonicalColumns(Normalize(headers));
  }

  /** `Net Cash Flow` is renamed onto the name of a `Net_Cashflow` column beside it. */
  lemma NetColumnTwiceNormalize(headers: seq<string>)
    requires headers == ["Month", "Inflow", "Outflow", "Net Cash Flow", "Net_Cashflow"]
    ensures var n := Normalize(headers);
      |n| == 5 && n[0] == "Month" && n[1] == "Inflow" && n[2] == "Outflow"
      && n[3] == "Net_Cashflow" && n[4] == "Net_Cashflow"
  {
    NormalizeLettered(headers, 0);
    NormalizeLettered(headers, 1);
    NormalizeLettered(headers, 2);
    NormalizeLettered(headers, 3);
    NormalizeLettered(headers, 4);
  }

  /** Core columns at 0, 1 and 2 followed by two columns of another name are each found at their position. */
  lemma CoreColumnsBeforeTwoOthers(n: seq<string>, other: string)
    requires |n| == 5 && n[0] == "Month" && n[1] == "Inflow" && n[2] == "Outflow" && n[3] == other && n[4] == other
    requires other != "Month" && other != "Inflow" && other != "Outflow"
    ensures Find(n, "Month") == At(0) && Find(n, "Inflow") == At(1) && Find(n, "Outflow") == At(2)
  {
    assert |n[0]| == 5 && |n[1]| == 6 && |n[2]| == 7;
    FindUnique(n, "Month", 0);
    FindUnique(n, "Inflow", 1);
    FindUnique(n, "Outflow", 2);
  }

  /**
   * A table headed `Month`, `Inflow`, `Outflow`, `Net Cash Flow`,
   * `Net_Cashflow` has each of its three core columns once, but its last two
   * columns are both called `Net_Cashflow` after the rename.
   */
  lemma NetColumnTwice(headers: seq<string>)
    requires headers == ["Month", "Inflow", "Outflow", "Net Cash Flow", "Net_Cashflow"]
    ensures var n := Normalize(headers);
      && Find(n, "Month") == At(0) && Find(n, "Inflow") == At(1) && Find(n, "Outflow") == At(2)
      && !DistinctLabels(n)
  {
    NetColumnTwiceNormalize(headers);
    var n := Normalize(headers);
    assert |"Net_Cashflow"| == 12;
    CoreColumnsBeforeTwoOthers(n, "Net_Cashflow");
    assert n[3] == n[4];
  }
}
