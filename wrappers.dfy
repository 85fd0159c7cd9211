/** Option and Result, the two wrappers the recipe interpreter's values and failures are written in. */
module Wrappers {

  /** An optional value; a field of the package that has not been set is `None`. */
  datatype Option<+T> = None | Some(value: T)

  /** The outcome of an operation that the source ends with a panic when it fails. */
  datatype Result<+T, +E> = Ok(value: T) | Err(error: E)
}
