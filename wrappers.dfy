/** Option and Result: how the model writes Java's `null` and thrown exceptions. */
module Wrappers {

  /** A Java reference that may be `null` (None). */
  datatype Option<+T> = None | Some(value: T)

  /** The outcome of a Java call that either returns a value or throws. */
  datatype Result<+T, +E> = Ok(value: T) | Err(error: E)
}
