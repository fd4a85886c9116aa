/** Optional values and success/failure results, shared by every module of the model. */
module Wrappers {

  /** A value that may be absent: `undefined`, `null` or a missing form field. */
  datatype Option<+T> = None | Some(value: T) {
    function GetOr(default: T): T {
      match this
      case Some(v) => v
      case None => default
    }
  }

  /** Either a value or an error, as returned by a validator. */
  datatype Result<+R, +E> = Success(value: R) | Failure(error: E)
}
