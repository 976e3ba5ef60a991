/** Optional values and results that carry an error message: Python's `None` and raised exceptions. */
module Wrappers {

  datatype Option<+T> = None | Some(value: T) {

    /** The value, or `default` when there is none (Python's `d.get(k, default)`). */
    function GetOr(default: T): T
    {
      match this
      case Some(v) => v
      case None => default
    }
  }

  /** `Failure(e)` stands for an exception whose message (`str(e)`) is `e`. */
  datatype Result<+R, +E> = Success(value: R) | Failure(error: E)
}
