/** Optional values and success/failure results, used wherever the application
    has `undefined`, `null` or a thrown error. */
module Wrappers {

  /** A value that may be absent: `undefined` / `null` in the application. */
  datatype Option<+T> = None | Some(value: T) {

    /** The value, or a default when absent. */
    function GetOr(default: T): T {
      match this
      case Some(v) => v
      case None => default
    }
  }

  /** The settled state of an operation that may throw. */
  datatype Result<+R, +E> = Success(value: R) | Failure(error: E)
}
