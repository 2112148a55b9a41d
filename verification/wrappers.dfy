/** The two result types the models share. */
module Wrappers {

  /** A TypeScript value that may be `undefined` or `null`. */
  datatype Option<+T> = None | Some(value: T)

  /** A call that returns a value or throws. */
  datatype Result<+T, +E> = Ok(value: T) | Err(error: E)
}
