/** Option and Result, the two failure-carrying shapes the modelled code uses
    (Rust's `Option`/`Result`, JavaScript's `null`). */
module Wrappers {

  datatype Option<+T> = None | Some(value: T) {
    function GetOr(default: T): T {
      match this
      case Some(v) => v
      case None => default
    }
  }

  /** `Err` carries the error message the source puts in its `APIError`. */
  datatype Result<+T, +E> = Ok(value: T) | Err(error: E)
}
