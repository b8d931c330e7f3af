/** Optional values (Ruby's nil) and results that may carry a raised error. */
module Wrappers {

  /** A value that may be absent: `None` plays the part of Ruby's `nil`. */
  datatype Option<+T> = None | Some(value: T) {

    /** The value, or `default` when absent (Ruby's `x || default`). */
    function GetOr(default: T): T {
      match this
      case Some(v) => v
      case None => default
    }
  }

  /** The outcome of a computation that either returns a value or raises. */
  datatype Result<+T, +E> = Success(value: T) | Failure(error: E)
}
