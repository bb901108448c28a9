/** Option and Result, standing in for Kotlin's nullable types and for
    exceptions that a call can raise. */
module Wrappers {

  /** A Kotlin `T?`: either absent (`null`) or a present value. */
  datatype Option<+T> = None | Some(value: T) {

    /** The value, or `default` when absent (Kotlin's `?:`). */
    function GetOr(default: T): T {
      match this
      case Some(v) => v
      case None => default
    }
  }

  /** The outcome of a call that either returns a value or raises. */
  datatype Result<+R, +E> = Success(value: R) | Failure(error: E)
}
