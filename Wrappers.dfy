/** Option and Result values standing for Java's null references and thrown exceptions. */
module Wrappers {

  /** A nullable value: None stands for Java's null. */
  datatype Option<+T> = None | Some(value: T)

  /** The outcome of a call that either returns a value or throws an exception with a message. */
  datatype Result<+R> = Success(value: R) | Failure(error: string)
}
