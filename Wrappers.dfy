/** Option and Result values used where the service returns null or throws. */
module Wrappers {

  datatype Option<+T> = None | Some(value: T)

  /** A business outcome: the payload of a successful call, or the error it raised. */
  datatype Result<+R, +E> = Ok(value: R) | Err(error: E)

  /** The outcome of a document hook: `next()` or `next(error)`. */
  datatype Outcome<+E> = Pass | Fail(error: E)
}
