/** Option and Result, the two wrappers the rest of the model is written with. */
module Wrappers {

  /** Python's `None` or a present value. */
  datatype Option<+T> = None | Some(value: T) {
    function GetOr(default: T): T {
      match this
      case Some(v) => v
      case None => default
    }
  }

  /** A value, or the exception that escaped instead of it. */
  datatype Result<+R, +E> = Success(value: R) | Failure(error: E)
}
