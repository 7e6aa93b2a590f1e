/** Optional values and results with an error, used by every other module. */
module Wrappers {

  /** A value that may be absent (`undefined` in the source, `null` from a query). */
  datatype Option<+T> = None | Some(value: T)

  /** A computation that either produced a value or failed with an error. */
  datatype Result<+T, +E> = Ok(value: T) | Err(error: E)
}
