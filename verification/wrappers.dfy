/** Option and Result, the shapes used for absent values and for the
    outcomes of calls that may throw. */
module Wrappers {

  datatype Option<+T> = None | Some(value: T) {

    /** Returns the contained value, or `default` when absent. */
    function GetOr(default: T): T {
      match this
      case Some(v) => v
      case None => default
    }
  }

  /** A computation that either produced a value or threw `error`. */
  datatype Result<+R, +E> = Success(value: R) | Failure(error: E) {

    function ToOption(): Option<R> {
      match this
      case Success(v) => Some(v)
      case Failure(_) => None
    }
  }
}
