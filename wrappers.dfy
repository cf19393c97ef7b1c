/** Option, Result and Outcome: the model's stand-ins for JavaScript's
    `undefined`, for thrown errors and for "returned normally". */
module Wrappers {

  /** `None` models a JavaScript value that is `undefined` (or `null`). */
  datatype Option<+T> = None | Some(value: T) {
    /** The value, or `default` when absent. */
    function GetOr(default: T): T {
      match this
      case Some(v) => v
      case None => default
    }
  }

  /** A call that either returns a value or throws an error. */
  datatype Result<+R, +E> = Success(value: R) | Failure(error: E)

  /** A call that returns nothing useful or throws an error. */
  datatype Outcome<+E> = Pass | Fail(error: E)
}
