/** Failure-compatible wrappers: the model's stand-ins for Python's `None` and for raised exceptions. */
module Wrappers {

  /** A value that may be absent (Python `None`). */
  datatype Option<+T> = None | Some(value: T)

  /** A computation that either returns a value or raises an error. */
  datatype Result<+T, +E> = Success(value: T) | Failure(error: E)

  /** A side-effecting step that either completes or raises an error. */
  datatype Outcome<+E> = Pass | Fail(error: E)
}
