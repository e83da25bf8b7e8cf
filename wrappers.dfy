/** Option and Result, the two failure-carrying datatypes the model uses
    for Ruby's `nil` results and raised exceptions. */
module Wrappers {

  datatype Option<+T> = None | Some(value: T)

  datatype Result<+T, +E> = Ok(value: T) | Err(error: E)
}
