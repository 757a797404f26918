/** Plain `Option` and `Result` datatypes shared by the other modules. */
module Wrappers {

  datatype Option<+T> = None | Some(value: T)

  /** Success carries the value; Failure carries the error the handler raises. */
  datatype Result<+R, +E> = Success(value: R) | Failure(error: E)
}
