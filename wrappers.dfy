/** Option and Result, used for the values the analysis may fail to produce. */
module Wrappers {

  datatype Option<+T> = None | Some(value: T)

  /** The Python exceptions that the per-file handler turns into a skipped file. */
  datatype Error =
    | ZeroDivision   // Python float division by zero
    | IndexError     // indexing past the end of a list

  datatype Result<+T> = Success(value: T) | Failure(error: Error)
}
