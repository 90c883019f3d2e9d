/** The two small containers every other module uses. */
module Prelude {
  datatype Option<+T> = None | Some(value: T)

  /** The source's thrown errors become the `Err` alternative. */
  datatype Result<+T, +E> = Ok(value: T) | Err(error: E)
}
