/** Optional values (JavaScript's `undefined`/`null`) and callback results. */
module Wrappers {

  datatype Option<+T> = None | Some(value: T) {

    /** The value, or `default` when absent (JavaScript's `x ?? default`). */
    function GetOr(default: T): T
    {
      match this
      case Some(v) => v
      case None => default
    }
  }

  /** A value, or the error a callback reported instead. */
  datatype Result<+T, +E> = Ok(value: T) | Err(error: E)
}
