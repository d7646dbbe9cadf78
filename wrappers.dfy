/** Optional values, standing in for Swift's `Optional`, and the outcome of an operation that may throw. */
module Wrappers {

  datatype Option<+T> = None | Some(value: T) {

    /** The wrapped value, or `default` when there is none (Swift's `??`). */
    function GetOr(default: T): T {
      match this
      case Some(v) => v
      case None => default
    }
  }

  /** A value, or the error a throwing Swift function would have thrown instead. */
  datatype Result<+T, +E> = Success(value: T) | Failure(error: E)
}
