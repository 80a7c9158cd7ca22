/** Failure-carrying values: Python's `None` and raised exceptions become data. */
module Wrappers {

  /** A value that may be absent, as Python's `Optional[...]`. */
  datatype Option<+T> = None | Some(value: T)

  /** Either a returned value or a raised error. */
  datatype Result<+T, +E> = Success(value: T) | Failure(error: E)
}
