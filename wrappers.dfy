/** Option and Result, the two failure-carrying shapes the rest of the model uses. */
module Wrappers {

  /** A value that may be absent: TypeScript's `T | undefined` and `T | null`. */
  datatype Option<+T> = None | Some(value: T)

  /** The outcome of an operation that may throw: `Ok` or the error it raised. */
  datatype Result<+T, +E> = Ok(value: T) | Err(error: E)
}
