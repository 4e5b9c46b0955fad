/** Small failure-carrying datatypes shared by the other modules. */
module Wrappers {

  /** PHP's `null` versus a present value. */
  datatype Option<+T> = None | Some(value: T) {
    function GetOr(default: T): T {
      if Some? then value else default
    }
  }

  /** A value, or the exception that an operation raised instead. */
  datatype Result<+T, +E> = Success(value: T) | Failure(error: E)
}
