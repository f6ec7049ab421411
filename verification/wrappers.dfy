/** Option and Result, the two failure-carrying wrappers used throughout the model. */
module Wrappers {

  /** Python's `None` or a present value. */
  datatype Option<+T> = None | Some(value: T) {
    /** The value, or `default` when there is none. */
    function GetOr(default: T): T {
      match this
      case Some(v) => v
      case None => default
    }
  }

  /** A value, or the exception the source would have raised instead. */
  datatype Result<+T, +E> = Ok(value: T) | Err(error: E)
}
