/** Failure-carrying values shared by every module of the model. */
module Wrappers {

  /** A value that may be missing: JavaScript's `undefined`/`null`, or a failed parse. */
  datatype Option<+T> = None | Some(value: T) {

    /** The carried value, or `default` when there is none. */
    function GetOr(default: T): T {
      match this
      case Some(v) => v
      case None => default
    }
  }

  /** The outcome of an operation that may throw: `Ok` carries the resolved value,
      `Err` the thrown error. */
  datatype Result<+T, +E> = Ok(value: T) | Err(error: E)
}
