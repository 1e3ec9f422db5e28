/** Option and Result, the two failure-carrying datatypes the model uses in
    place of Ruby's `nil` and raised exceptions. */
module Wrappers {

  /** `None` plays the role of Ruby's `nil` for a lookup that finds nothing. */
  datatype Option<+T> = None | Some(value: T)

  /** `Failure` plays the role of an exception raised by the operation. */
  datatype Result<+R, +E> = Success(value: R) | Failure(error: E)
}
