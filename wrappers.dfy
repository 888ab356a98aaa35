/** Optional values and pass/fail outcomes, standing in for JavaScript's
    `undefined` and for exceptions thrown by the modelled code. */
module Wrappers {

  datatype Option<+T> = None | Some(value: T) {
    /** The value, or `default` when absent (JavaScript's `x || default`
        for a field that is either missing or holds a non-zero number). */
    function GetOr(default: T): T {
      match this
      case Some(v) => v
      case None => default
    }
  }

  /** The result of an operation that either completes or throws an error
      carrying a message. */
  datatype Outcome = Pass | Fail(message: string)

  /** A value, or the message of the error thrown while computing it. */
  datatype Result<+T> = Ok(value: T) | Err(message: string)
}
