/** Failure-carrying values shared by the other modules. */
module Wrappers {

  /** A value that may be absent (Python's `None`). */
  datatype Option<+T> = None | Some(value: T)

  /** The outcome of a call that may raise an exception instead of returning. */
  datatype Result<+T, +E> = Success(value: T) | Failure(error: E)
}
