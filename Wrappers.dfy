/** Option and Result datatypes shared by the other modules. */
module Wrappers {

  /** A value that may be absent (a missing EXIF tag, an unchanged image). */
  datatype Option<+T> = None | Some(value: T)

  /** The outcome of an operation that the Android framework may reject with an exception. */
  datatype Result<+T, +E> = Success(value: T) | Failure(error: E)
}
