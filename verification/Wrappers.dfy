/** Failure-aware results shared by the whole project. */
module Wrappers {

  datatype Option<+T> = None | Some(value: T)

  /** What a call of the modelled program answers: a value, or the error it throws. */
  datatype Result<+T, +E> = Ok(value: T) | Err(error: E)
}
