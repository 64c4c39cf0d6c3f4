/** Small datatypes shared by the models, and the unit of time. */
module Basics {
  datatype Option<+T> = None | Some(value: T)

  datatype Result<+T, +E> = Ok(value: T) | Err(error: E)

  /** Times and lifetimes are in nanoseconds. */
  const SECONDS := 1_000_000_000
}
