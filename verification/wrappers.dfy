/** A success/failure value that stands in for a call that either returns
    normally or throws. */
module Wrappers {

  datatype Result<+R, +E> = Success(value: R) | Failure(error: E)
}
