/** Option and Result types shared by the other modules. */
module Wrappers {

  /** A value that may be absent (Swift's optional). */
  datatype Option<+T> = None | Some(value: T)

  /** The outcome of a call that may throw (Swift's `throws`). */
  datatype Result<+T, +E> = Ok(value: T) | Err(error: E)
}
