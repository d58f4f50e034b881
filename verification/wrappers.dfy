/** Option and Result values for the model's error paths. */
module Wrappers {

  datatype Option<+T> = None | Some(value: T) {
    function GetOr(default: T): T {
      match this
      case Some(v) => v
      case None => default
    }
  }

  /** A computation that either produced a value or raised one of the source's exceptions. */
  datatype Result<+T, +E> = Success(value: T) | Failure(error: E)
}
