/** Optional values and results, used for Python's `None` and raised exceptions. */
module Wrappers {

  /** `None` stands for Python's `None` (and, for table cells, pandas' missing values). */
  datatype Option<+T> = None | Some(value: T)

  /** The name of the Python exception a source operation raises. */
  datatype Error =
    | ValueError(columns: seq<string>)   // a requested column is missing
    | KeyError(columns: seq<string>)     // pandas refuses to aggregate a missing column
    | NoObjectsToConcatenate             // pandas' `ValueError` for an aggregation given no columns
    | AttributeError                     // `.group()` called on a failed regex search
    | IndexError                         // a list index past the end
    | OutOfBoundsDatetime                // a date pandas' nanosecond timestamps cannot hold
    | DateParseError                     // pandas' `ValueError` for a text it cannot read as a date

  datatype Result<+T> = Ok(value: T) | Err(error: Error)
}
