/** The wrappers the decoder uses: an optional value and a value-or-error. */
module Wrappers {

  /** A value that may be absent (None plays the part of pandas' NaN/NaT). */
  datatype Option<+T> = None | Some(value: T)

  /** The outcome of an operation that can raise: its value, or the error it raises. */
  datatype Result<+R, +E> = Success(value: R) | Failure(error: E)
}
