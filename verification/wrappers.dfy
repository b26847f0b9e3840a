/** Failure-carrying wrappers used by the selector model: `Option` for the
    component's nullable fields and `Result` for operations that can throw. */
module Wrappers {

  /** A value that may be absent, standing for a JavaScript `null`. */
  datatype Option<+T> = None | Some(value: T)

  /** Either a successful value or the error a JavaScript call would throw. */
  datatype Result<+R, +E> = Success(value: R) | Failure(error: E)
}
