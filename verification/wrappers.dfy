/** Option and Result, the failure-carrying datatypes used across the model. */
module Wrappers {

  /** A value that may be absent: Python's `None`, TypeScript's `undefined`/`null`. */
  datatype Option<+T> = None | Some(value: T) {

    /** The carried value, or `default` when absent (TypeScript's `??`). */
    function GetOr(default: T): T {
      match this
      case Some(v) => v
      case None => default
    }
  }

  /** Either a computed value or an error description. */
  datatype Result<+R, +E> = Success(value: R) | Failure(error: E)
}
