/** Optional values and error-or-value results, standing in for C#'s nullable
    references and thrown exceptions. */
module Wrappers {

  datatype Option<+T> = None | Some(value: T) {
    function GetOr(default: T): T {
      match this
      case Some(v) => v
      case None => default
    }
  }

  datatype Result<+R, +E> = Success(value: R) | Failure(error: E)

  /** Outcome of a void operation that may throw. */
  datatype Outcome<+E> = Pass | Fail(error: E)
}
