/** Option and Result, for JavaScript's nullable values and for operations that can throw. */
module Wrappers {

  /** `None` stands for a missing JavaScript value; each use site says whether that is `null`, `undefined` or both. */
  datatype Option<+T> = None | Some(value: T) {

    /** The contained value, or `default` when absent (a JavaScript default parameter). */
    function GetOr(default: T): T
    {
      match this
      case Some(v) => v
      case None => default
    }
  }

  /** The outcome of an operation that either returns a value or throws/rejects with an error. */
  datatype Result<+R, +E> = Success(value: R) | Failure(error: E)
}
