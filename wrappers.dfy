/** Failure-carrying values shared by the readers and the viewer. */
module Wrappers {

  datatype Option<+T> = None | Some(value: T)

  /** A backend outcome: either a value or an error message (the `{"error": ...}` dictionaries). */
  datatype Result<+T, +E> = Success(value: T) | Failure(error: E)
}
