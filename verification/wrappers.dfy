/** Optional values and results shared by the whole model. */
module Wrappers {

  /** An optional value: JavaScript's `undefined`/`null` versus a present value. */
  datatype Option<+T> = None | Some(value: T) {

    /** The wrapped value, or `default` when absent (JavaScript's `x ?? default`). */
    function GetOr(default: T): (r: T)
      ensures Some? ==> r == value
      ensures None? ==> r == default
    {
      match this
      case Some(v) => v
      case None => default
    }
  }

  /** A value or an error, for operations that throw in the source. */
  datatype Result<+R, +E> = Success(value: R) | Failure(error: E)
}
