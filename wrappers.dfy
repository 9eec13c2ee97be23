/** Optional values and outcomes: the model's rendering of Python's `None` and of a raised exception. */
module Wrappers {
  datatype Option<+T> = None | Some(value: T) {
    function GetOr(default: T): T {
      match this
      case Some(v) => v
      case None => default
    }
  }

  /** A value, or the exception the source would raise instead. */
  datatype Result<+T> = Success(value: T) | Failure(error: string)
}
