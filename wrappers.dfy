/** Option and Result values shared by every module of the model. */
module Wrappers {

  /** A value that may be missing (Go's nil pointer, JavaScript's undefined). */
  datatype Option<+T> = None | Some(value: T) {
    function GetOr(default: T): T {
      if Some? then value else default
    }
  }

  /** The outcome of a Go call that returns `(value, error)`. */
  datatype Result<+T, +E> = Ok(value: T) | Err(error: E)
}
