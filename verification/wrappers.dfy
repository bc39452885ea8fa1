/** Option and Result: the model's stand-ins for a nullable reference and for
    an operation that either completes or throws. */
module Wrappers {

  /** A reference that may be null: `None` is the null reference. */
  datatype Option<+T> = None | Some(value: T)

  /** The outcome of an operation that may throw: `Failure` carries the
      exception, `Success` the state the operation leaves behind. */
  datatype Result<+T, +E> = Success(value: T) | Failure(error: E)
}
