/** Outcome and optional-value datatypes shared by the modules. */
module Wrappers {
  datatype Option<+T> = None | Some(value: T)

  /** `Failure` stands for the source's thrown and returned errors. */
  datatype Result<+T, +E> = Success(value: T) | Failure(error: E)
}
