/**
 * The ways a forecast request can fail, with the HTTP status and the `error`
 * message each one is answered with.
 */
module Errors {

  datatype Failure =
    | NoFile                  // no `file` part in the upload
    | UnsupportedFormat       // the file name has none of the accepted suffixes
    | NotEnoughRows           // fewer than three rows survive cleaning
    | Raised(message: string) // any exception, caught by the handler's outer `except`

  function Status(f: Failure): (code: int)
    ensures code == 500 <==> f.Raised?
    ensures code == 400 <==> !f.Raised?
  {
    if f.Raised? then 500 else 400
  }

  /** The `error` text of the answer: the handler's own wording, or `str(e)` of the exception. */
  function Message(f: Failure): (m: string)
    ensures f.Raised? ==> m == f.message
  {
    match f
    case NoFile => "No file uploaded"
    case UnsupportedFormat => "Unsupported file format"
    case NotEnoughRows => "Not enough valid rows for forecasting"
    case Raised(m) => m
  }

  /** `str(KeyError(name))`: the missing column's name in single quotes. */
  function KeyErrorMessage(name: string): (m: string)
    ensures |m| == |name| + 2 && m[0] == '\'' && m[|m| - 1] == '\'' && m[1..|m| - 1] == name
  {
    "'" + name + "'"
  }

  /** The handler's three refusals are worded differently, so a client can tell them apart. */
  lemma RefusalMessagesDistinct()
    ensures Message(NoFile) != Message(UnsupportedFormat)
    ensures Message(NoFile) != Message(NotEnoughRows)
    ensures Message(UnsupportedFormat) != Message(NotEnoughRows)
  {
    assert Message(NoFile)[0] != Message(UnsupportedFormat)[0];
    assert Message(NoFile)[2] != Message(NotEnoughRows)[2];
    assert Message(UnsupportedFormat)[0] != Message(NotEnoughRows)[0];
  }

  /** The message of the failed `df["Month"]` lookup on line 43. */
  lemma MonthKeyError()
    ensures KeyErrorMessage("Month") == "'Month'"
  {
  }

  /** Selecting a duplicated `Month` column yields a frame, which has no `tolist` (the print on line 43). */
  const FrameHasNoToList: string := "'DataFrame' object has no attribute 'tolist'"

  /** `pd.to_numeric` refuses a frame, which is what a duplicated `Inflow` or `Outflow` selects. */
  const ToNumericNeedsSeries: string := "arg must be a list, tuple, 1-d array, or Series"

  /** `pd.concat` aligns the frames' columns by reindexing, which a frame with a repeated column label refuses (line 108). */
  const ReindexNeedsUniqueLabels: string := "Reindexing only valid with uniquely valued Index objects"
}
