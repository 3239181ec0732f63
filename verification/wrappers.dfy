/** Failure-compatible wrappers shared by the whole model: `Option` for values
    that may be absent (JavaScript `undefined`/`null`, SQL `NULL`) and `Result`
    for operations that may raise. */
module Wrappers {

  datatype Option<+T> = None | Some(value: T) {

    /** The wrapped value, or `default` when there is none. */
    function GetOr(default: T): T {
      match this
      case Some(v) => v
      case None => default
    }
  }

  datatype Result<+T, +E> = Ok(value: T) | Err(error: E)
}
