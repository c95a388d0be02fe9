/** Option and Result datatypes, used for the exceptions the estimator can raise. */
module Outcome {

  datatype Option<+T> = None | Some(value: T)

  /** Either the value a Java method returns or the exception it throws instead. */
  datatype Result<+T, +E> = Success(value: T) | Failure(error: E)
}
