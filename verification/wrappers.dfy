/** Failure-carrying return values, standing in for the exceptions the
    generator raises (a missing column, a zero batch step). */
module Wrappers {

  datatype Option<+T> = None | Some(value: T)

  datatype Result<+R, +E> = Success(value: R) | Failure(error: E)
}
