/** Option and Result, the two failure-carrying shapes the model uses in place of
    Go's `(value, error)` returns and `nil` pointers. */
module Wrappers {

  datatype Option<+T> = None | Some(value: T)

  datatype Result<+T, +E> = Ok(value: T) | Err(error: E) {
    predicate IsFailure() { Err? }
  }
}
