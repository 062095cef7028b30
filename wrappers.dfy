/** Option and Result values for the lookups and error returns of the model. */
module Wrappers {

  datatype Option<+T> = None | Some(value: T) {
    function GetOr(default: T): T {
      match this
      case Some(v) => v
      case None => default
    }
  }

  /** The source's `std::expected` and thrown exceptions: a value or an error message. */
  datatype Result<+T, +E> = Ok(value: T) | Err(error: E)
}
