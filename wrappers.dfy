/** Option and Result: the "undefined" values and thrown errors of the JavaScript code. */
module Wrappers {

  datatype Option<+T> = None | Some(value: T)

  /** A settled promise: `Success` when it resolves, `Failure` with the error's message when it rejects. */
  datatype Result<+T> = Success(value: T) | Failure(error: string)
}
