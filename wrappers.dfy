/**
 * The optional value used wherever the source has `undefined`, `null` or a
 * missing key, and the outcome of a call that may throw.
 */
module Wrappers {

  datatype Option<+T> = None | Some(value: T) {

    /** The value, or `default` when there is none (the source's `x || default` on objects). */
    function GetOr(default: T): (r: T)
      ensures Some? ==> r == value
      ensures None? ==> r == default
    {
      match this
      case Some(v) => v
      case None => default
    }
  }

  /** What an `async` call that may throw produces: its value, or the message it threw with. */
  datatype Result<+T> = Success(value: T) | Failure(error: string)
}
