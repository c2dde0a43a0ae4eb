/** Failure-carrying result types used across the model: `Option` stands for a
    pandas missing value (NaN), `Result` for a Python exception that ends the run. */
module Wrappers {

  datatype Option<+T> = None | Some(value: T)

  datatype Result<+R, +E> = Ok(value: R) | Err(error: E)
}
