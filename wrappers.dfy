/** Failure-carrying datatypes shared by the model, and the Java exceptions
    that the modelled code raises or lets escape. */
module Wrappers {

  datatype Option<+T> = None | Some(value: T)

  /** A Java exception, named after its class. */
  datatype Exception =
    | NullPointer
    | IllegalArgument(message: string)
    | IllegalState(message: string)
    | NumberFormat(input: string)
    | IndexOutOfBounds(begin: int, end: int, length: int)
    | RuntimeFailure(message: string)

  /** The outcome of a Java method that returns a value or throws. */
  datatype Result<+R> = Success(value: R) | Failure(error: Exception)

  /** The outcome of a Java `void` method: it returns normally or throws. */
  datatype Outcome = Pass | Fail(error: Exception)
}
