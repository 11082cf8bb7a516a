/** Failure-carrying results for operations that throw in the modelled Java code. */
module Wrappers {

  datatype Option<+T> = None | Some(value: T)

  /** The outcome of a void Java method that may throw. */
  datatype Outcome<+E> = Pass | Fail(error: E)

  /** The value of a Java method that returns normally, or the exception it throws. */
  datatype Result<+T, +E> = Success(value: T) | Failure(error: E)

  /** The Java exceptions the modelled code can raise. */
  datatype JavaException =
    | IllegalArgumentException(message: string)
    | ArithmeticException
    | NullPointerException
}
