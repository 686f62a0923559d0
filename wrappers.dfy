/** Option and Result, used for nullable inputs and for errors the source throws. */
module Wrappers {

  /** A value that may be absent: `None` stands for a null reference or a missing field. */
  datatype Option<+T> = None | Some(value: T) {
    function GetOr(default: T): T {
      match this
      case Some(v) => v
      case None => default
    }
  }

  /** The outcome of an operation that may throw: `Err` carries the exception's message. */
  datatype Result<+T> = Ok(value: T) | Err(error: string)
}
