/** Option and Result, the two small wrappers the rest of the model uses for
    "may be absent" and "may fail". */
module Wrappers {

  /** A value that may be absent (JavaScript `undefined`). */
  datatype Option<+T> = None | Some(value: T)

  /** The outcome of an operation that throws in the original: either its
      value or the error it would throw. */
  datatype Result<+T, +E> = Ok(value: T) | Err(error: E)
}
