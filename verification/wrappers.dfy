/** Failure-carrying datatypes shared by the rest of the model. */
module Wrappers {

  /** An optional value: `None` is an absent query parameter or a store call that failed. */
  datatype Option<+T> = None | Some(value: T)

  /** The outcome of a check that either accepts (with a value) or rejects (with an error). */
  datatype Result<+T, +E> = Ok(value: T) | Err(error: E)
}
