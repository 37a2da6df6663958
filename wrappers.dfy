/** Small failure-carrying datatypes shared by the other modules. */
module Wrappers {

  datatype Option<+T> = None | Some(value: T)

  /** The outcome of a step that may throw: a value, or what was thrown. */
  datatype Result<+T, +E> = Ok(value: T) | Err(error: E)
}
