/** Optional values (JavaScript `undefined`/`null`) and success-or-error results (a thrown `Error`). */
module Wrappers {

  /** `None` stands for `null` or `undefined`, `Some(v)` for a present value. */
  datatype Option<+T> = None | Some(value: T) {
    function GetOr(default: T): T {
      match this
      case Some(v) => v
      case None => default
    }
  }

  /** `Err(e)` stands for an `Error` thrown with message or payload `e`. */
  datatype Result<+T, +E> = Ok(value: T) | Err(error: E)
}
