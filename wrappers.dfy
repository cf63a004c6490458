/** Option and Result, the two failure-carrying shapes the rest of the model uses
    for the source's nulls and exceptions. */
module Wrappers {

  /** A value that may be absent: the source's `null` and nullable value types. */
  datatype Option<+T> = None | Some(value: T) {
    function GetOr(default: T): T {
      match this
      case Some(v) => v
      case None => default
    }
  }

  /** The outcome of an operation that may throw: `Failure` carries the exception kind. */
  datatype Result<+R, +E> = Success(value: R) | Failure(error: E)
}
