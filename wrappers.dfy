/** Failure-compatible result types shared by every module of the model. */
module Wrappers {

  /** A value that may be absent: JavaScript's `undefined`/`null`, or an empty query result. */
  datatype Option<+T> = None | Some(value: T) {
    function GetOr(default: T): T {
      match this
      case Some(v) => v
      case None => default
    }
  }

  /** The outcome of an operation that can throw: the thrown error becomes `Err`. */
  datatype Result<+T, +E> = Ok(value: T) | Err(error: E)
}
