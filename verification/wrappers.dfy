/** Failure-carrying result types shared by the rest of the model. */
module Wrappers {

  /** A value that may be absent, as `find`/`findIndex` results are. */
  datatype Option<+T> = None | Some(value: T)

  /** The result of an operation that the source lets throw. */
  datatype Result<+T, +E> = Ok(value: T) | Failure(error: E)
}
