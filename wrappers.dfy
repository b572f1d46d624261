/** Option and Result, used for the error paths of the modelled code. */
module Wrappers {

  datatype Option<+T> = None | Some(value: T) {
    function GetOr(default: T): T {
      match this
      case Some(v) => v
      case None => default
    }
  }

  datatype Result<+R, +E> = Ok(value: R) | Err(error: E)

  /** The Python exceptions the modelled code raises or lets escape. */
  datatype PyError = ValueError | ZeroDivisionError | IndexError | RuntimeError
}
