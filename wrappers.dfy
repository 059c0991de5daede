/** Option and Result, the two failure-carrying shapes the model uses. */
module Wrappers {

  /** Python's `None` or a present value. */
  datatype Option<+T> = None | Some(value: T) {
    function GetOr(default: T): T {
      match this
      case Some(v) => v
      case None => default
    }
  }

  /** A value, or the error a Python `raise` would have produced. */
  datatype Result<+T, +E> = Ok(value: T) | Err(error: E)

  /** Python truthiness of an optional string: neither None nor "". */
  predicate Present(s: Option<string>) {
    s.Some? && s.value != ""
  }
}
