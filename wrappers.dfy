/** Optional values and results with an error path, used by every other module. */
module Wrappers {

  /** A value that may be absent: SQL NULL, a missing row, a failed parse. */
  datatype Option<+T> = None | Some(value: T)

  /** A computation that either yields a value or raises an error. */
  datatype Result<+R, +E> = Success(value: R) | Failure(error: E)
}
