/** Failure-carrying values shared by the model: a Java method that may throw an
    exception returns a Result, and the exception is represented by its message. */
module Wrappers {

  datatype Option<+T> = None | Some(value: T)

  /** The value a Java method returns, or the message of the exception it throws. */
  datatype Result<+T> = Ok(value: T) | Err(message: string)

  /** The outcome of a Java method returning void: it completes or it throws. */
  datatype Status = Pass | Fail(message: string)
}
