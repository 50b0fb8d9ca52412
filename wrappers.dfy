/** Failure-carrying values shared by every module of the model. */
module Wrappers {

  datatype Option<+T> = None | Some(value: T) {
    function GetOr(default: T): T {
      match this
      case Some(v) => v
      case None => default
    }
  }

  /** The value-or-error pair that a Go function `(T, error)` returns. */
  datatype Result<+T, +E> = Ok(value: T) | Err(error: E)

  /** The bare `error` a Go function returns: nil (Pass) or an error value. */
  datatype Outcome<+E> = Pass | Fail(error: E)
}
