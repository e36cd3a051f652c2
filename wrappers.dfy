/** Failure-carrying values used for the outcomes of the external collaborators. */
module Wrappers {

  datatype Option<+T> = None | Some(value: T)

  /** Either a value or the text of the exception that the collaborator raised. */
  datatype Result<+T, +E> = Success(value: T) | Failure(error: E)
}
