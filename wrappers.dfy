/** The optional-value type used across the model (PHP `null` versus a set value). */
module Wrappers {

  datatype Option<+T> = None | Some(value: T) {

    /** The value, or `default` when none is set (PHP's `??`). */
    function GetOr(default: T): (r: T)
      ensures Some? ==> r == value
      ensures None? ==> r == default
    {
      match this
      case Some(v) => v
      case None => default
    }
  }

  /** The outcome of a step that can fail with a PHP error (a TypeError or an uncaught exception). */
  datatype Result<+T> = Success(value: T) | Failure(error: string)
}
