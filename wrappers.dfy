/** Optional values and failing computations, shared by every module of the model. */
module Wrappers {

  /** A value that may be absent: JavaScript's `undefined` result of a lookup. */
  datatype Option<+T> = None | Some(value: T) {

    /** The value, or `default` when absent (JavaScript's `??`). */
    function GetOr(default: T): T {
      match this
      case Some(v) => v
      case None => default
    }
  }

  /** A computation that either returns a value or throws an `Error` carrying a message. */
  datatype Result<+T> = Ok(value: T) | Err(message: string)
}
