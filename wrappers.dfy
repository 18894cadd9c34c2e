/** Option and Result, used for PHP's `null` returns and thrown exceptions. */
module Wrappers {

  datatype Option<+T> = None | Some(value: T)

  /** `Failure` stands for an exception thrown by the PHP code. */
  datatype Result<+T, +E> = Success(value: T) | Failure(error: E)
}
