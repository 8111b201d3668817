/**
 * Upload dispatch: the uploaded file's name decides which reader parses it.
 * The test is a case-sensitive suffix test on the name as sent.
 */
module Upload {

  datatype Format = Csv | Excel | Unsupported

  /** Python's `str.endswith` for one suffix. */
  predicate EndsWith(s: string, suffix: string) {
    |suffix| <= |s| && s[|s| - |suffix|..] == suffix
  }

  /** `EndsWith` holds exactly when the name is some string followed by the suffix. */
  lemma EndsWithMeansConcat(s: string, suffix: string)
    ensures EndsWith(s, suffix) <==> exists p :: s == p + suffix
  {
    if EndsWith(s, suffix) {
      var p := s[..|s| - |suffix|];
      assert s == p + suffix;
    }
    if exists p :: s == p + suffix {
      var p :| s == p + suffix;
      assert s[|s| - |suffix|..] == suffix;
    }
  }

  /**
   * `.csv` selects the CSV reader; otherwise `.xlsx` or `.xls` selects the
   * spreadsheet reader; any other name is rejected.
   */
  function Dispatch(filename: string): (f: Format)
    ensures f == Csv <==> exists p :: filename == p + ".csv"
    ensures f == Excel <==> (!exists p :: filename == p + ".csv")
                            && ((exists p :: filename == p + ".xlsx") || (exists p :: filename == p + ".xls"))
    ensures f == Unsupported <==> (!exists p :: filename == p + ".csv")
                                  && (!exists p :: filename == p + ".xlsx") && (!exists p :: filename == p + ".xls")
  {
    EndsWithMeansConcat(filename, ".csv");
    EndsWithMeansConcat(filename, ".xlsx");
    EndsWithMeansConcat(filename, ".xls");
    if EndsWith(filename, ".csv") then Csv
    else if EndsWith(filename, ".xlsx") || EndsWith(filename, ".xls") then Excel
    else Unsupported
  }

  /** A string that ends with a non-empty suffix ends with the suffix's last character. */
  lemma EndsWithLast(s: string, suffix: string)
    ensures EndsWith(s, suffix) && |suffix| > 0 ==> s[|s| - 1] == suffix[|suffix| - 1]
  {
    if EndsWith(s, suffix) && |suffix| > 0 {
      assert s[|s| - 1] == s[|s| - |suffix|..][|suffix| - 1];
    }
  }

  /** A name ending in a character that ends none of the three suffixes is rejected. */
  lemma RejectedByLastChar(filename: string)
    requires |filename| > 0 && filename[|filename| - 1] !in {'v', 'x', 's'}
    ensures Dispatch(filename) == Unsupported
  {
    EndsWithLast(filename, ".csv");
    EndsWithLast(filename, ".xlsx");
    EndsWithLast(filename, ".xls");
  }

  /** Any name followed by `.csv` goes to the CSV reader; by `.xlsx` or `.xls`, to the spreadsheet reader. */
  lemma DispatchBySuffix(p: string)
    ensures Dispatch(p + ".csv") == Csv
    ensures Dispatch(p + ".xlsx") == Excel && Dispatch(p + ".xls") == Excel
  {
    assert (p + ".csv")[|p|..] == ".csv";
    assert (p + ".xlsx")[|p|..] == ".xlsx";
    assert (p + ".xls")[|p|..] == ".xls";
    assert !EndsWith(p + ".xlsx", ".csv") by {
      assert (p + ".xlsx")[|p| + 4] == 'x';
    }
    assert !EndsWith(p + ".xls", ".csv") by {
      assert (p + ".xls")[|p| + 3] == 's';
    }
  }

  /** The suffix test is case-sensitive, and a suffix followed by more text does not count. */
  lemma DispatchCaseSensitive(p: string)
    ensures Dispatch(p + ".CSV") == Unsupported
    ensures Dispatch(p + ".XLSX") == Unsupported && Dispatch(p + ".XLS") == Unsupported
    ensures Dispatch(p + ".csv.txt") == Unsupported
  {
    RejectedByLastChar(p + ".CSV");
    RejectedByLastChar(p + ".XLSX");
    RejectedByLastChar(p + ".XLS");
    RejectedByLastChar(p + ".csv.txt");
  }
}
