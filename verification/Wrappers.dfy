/** The two result shapes the modules share: a value that may be absent, and an operation
    that may refuse. */
module Wrappers {

  datatype Option<+T> = None | Some(value: T)

  datatype Result<+T, +E> = Success(value: T) | Failure(error: E)
}
