/** Option and Result, the failure-carrying values the model's operations return. */
module Wrappers {

  datatype Option<+T> = None | Some(value: T)

  /** Ok carries an operation's value; Err carries the error it returns instead. */
  datatype Result<+T, +E> = Ok(value: T) | Err(error: E)
}
