/** Failure-carrying values used where the plotting helpers raise or may find nothing. */
module Wrappers {

  /** A value that may be absent (the result of a lookup). */
  datatype Option<+T> = None | Some(value: T)

  /** Either a value or the error that Python would raise instead. */
  datatype Result<+R, +E> = Success(value: R) | Failure(error: E)
}
