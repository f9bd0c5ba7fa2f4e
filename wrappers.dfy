/** Option and Result values, standing for JavaScript's `null`/absent and for
    calls that either return or throw. */
module Wrappers {

  datatype Option<+T> = None | Some(value: T) {

    /** The value, or `default` when absent (JavaScript's `x ?? default`). */
    function GetOr(default: T): T
    {
      match this
      case Some(v) => v
      case None => default
    }
  }

  /** The outcome of a call that may throw: a returned value or the error thrown. */
  datatype Result<+T, +E> = Success(value: T) | Failure(error: E)
}
