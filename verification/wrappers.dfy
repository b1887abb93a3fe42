/** Optional values and fallible results, standing in for JavaScript's
    `null`/`undefined` and for thrown errors. */
module Wrappers {

  /** A value that may be absent (`null` or `undefined` in the source). */
  datatype Option<+T> = None | Some(value: T) {

    /** The value if present, otherwise `default` (the `??` operator). */
    function GetOr(default: T): T {
      match this
      case Some(v) => v
      case None => default
    }
  }

  /** The outcome of an operation that may throw: `Failure` carries the
      message of the `Error` the source throws. */
  datatype Result<+T> = Success(value: T) | Failure(error: string)
}
