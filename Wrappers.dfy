/** Option and Result values used for the error paths of the benchmark bot. */
module Wrappers {

  datatype Option<+T> = None | Some(value: T) {
    function GetOr(default: T): T {
      match this
      case Some(v) => v
      case None => default
    }
  }

  /** A value or the error that Python would have raised instead. */
  datatype Result<+T, +E> = Ok(value: T) | Err(error: E)
}
