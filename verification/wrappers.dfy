/** Option and Result, the failure-carrying datatypes the model uses in place of
    null references and thrown exceptions. */
module Wrappers {

  /** A value that may be absent, standing for a nullable reference. */
  datatype Option<+T> = None | Some(value: T)

  /** Either a successful value or an error value. */
  datatype Result<+R, +E> = Success(value: R) | Failure(error: E)
}
