// Nullable values and error-carrying results shared by the other modules.
module Wrappers {

  /** A C pointer that may be NULL: `None` stands for NULL. */
  datatype Option<T> = None | Some(value: T)

  /** The result of a step that either yields a value or fails with an API error code. */
  datatype Result<T> = Ok(value: T) | Err(code: int)
}
