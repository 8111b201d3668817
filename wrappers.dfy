/** Option and Result, the two failure-carrying datatypes the pipeline uses. */
module Wrappers {

  /** A value that may be absent: a missing cell, an unparsed date, a JSON null. */
  datatype Option<+T> = None | Some(value: T)

  /** A stage's outcome: its value, or the error that ends the request. */
  datatype Result<+R, +E> = Ok(value: R) | Err(error: E)
}
