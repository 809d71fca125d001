/** The two result shapes the rest of the model shares: a value that may be absent, and an
    operation that may be refused. */
module Outcomes {
  datatype Option<+T> = None | Some(value: T)

  datatype Result<+T, +E> = Ok(value: T) | Err(error: E)
}
