/** Optional values and results shared by the other modules. */
module Wrappers {

  /** A value that may be absent: a dictionary key that is missing, or a
      browser lookup that raised. */
  datatype Option<+T> = None | Some(value: T) {
    function GetOr(default: T): T {
      match this
      case Some(v) => v
      case None => default
    }
  }

  /** The outcome of an operation that either returns or raises. */
  datatype Result<+R, +E> = Success(value: R) | Failure(error: E)
}
