/**
  Option and Result, the two shapes the application uses for "maybe absent"
  (a nullable field, NaN from a parse) and "accepted or rejected with issues"
  (a schema's safeParse).
*/
module Wrappers {

  datatype Option<+T> = None | Some(value: T) {

    /** The value, or `default` when absent (JavaScript's `x ?? default`). */
    function GetOr(default: T): T {
      match this
      case Some(v) => v
      case None => default
    }
  }

  datatype Result<+R, +E> = Success(value: R) | Failure(error: E)
}
