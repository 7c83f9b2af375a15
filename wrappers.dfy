/** Option for the nullable pointers of the C source, Result for its fail-fast checks. */
module Wrappers {

  /** A C pointer that may be NULL: `None` is NULL. */
  datatype Option<+T> = None | Some(value: T)

  /** The outcome of a constructor that aborts on invalid input. */
  datatype Result<+R, +E> = Success(value: R) | Failure(error: E)
}
