/** The optional-value and failure-carrying types shared by the modules. */
module Wrappers {

  /** A value that may be absent: Java's null reference, made explicit. */
  datatype Option<+T> = None | Some(value: T)

  /** Either a value or the exception that was raised instead of producing it. */
  datatype Result<+R, +E> = Success(value: R) | Failure(error: E)
}
