/** Failure-compatible wrappers used by the whole model. */
module Wrappers {

  /** A value that may be absent, such as an optional key of a JSON object. */
  datatype Option<+T> = None | Some(value: T) {
    function GetOr(default: T): T {
      match this
      case Some(v) => v
      case None => default
    }
  }

  /** The outcome of an operation that the source lets raise an exception. */
  datatype Result<+R, +E> = Success(value: R) | Failure(error: E)
}
