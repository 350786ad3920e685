/** The two result shapes of the program: a value that may be missing (a null in
    the source) and a computation that may throw. */
module Outcomes {

  datatype Option<+T> = None | Some(value: T)

  datatype Result<+T, +E> = Success(value: T) | Failure(error: E)
}
