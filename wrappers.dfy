/**
 * The optional value used throughout the model for "found / not found" and
 * "parsed / failed", and a result that carries either a value or the reason
 * an input was refused.
 */
module Wrappers {

  datatype Option<+T> = None | Some(value: T) {

    /** The wrapped value, or `default` when there is none. */
    function GetOr(default: T): T {
      match this
      case Some(v) => v
      case None => default
    }
  }

  datatype Result<+T, +E> = Ok(value: T) | Err(error: E)
}
