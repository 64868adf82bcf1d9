/** The success-or-rejection value every step of the mortgage pipeline returns. */
module Wrappers {

  /** Either a value or an error; the handler's 200 and 400 responses. */
  datatype Result<+T, +E> = Success(value: T) | Failure(error: E)
}
