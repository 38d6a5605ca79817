/** Optional values and error-carrying results shared by the lead modules. */
module Wrappers {

  /** A value that may be missing (JavaScript `null` / `undefined`). */
  datatype Option<+T> = None | Some(value: T) {

    /** The wrapped value, or `default` when missing (JavaScript `value ?? default`). */
    function GetOr(default: T): T {
      match this
      case Some(v) => v
      case None => default
    }
  }

  /** The outcome of an endpoint: a value, or the error it answers with. */
  datatype Result<+R, +E> = Ok(value: R) | Err(error: E)
}
