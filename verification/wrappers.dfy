/** The Option and Result datatypes used across the model. */
module Wrappers {

  /** A possibly-missing value; `None` stands for pandas' NaN ("undefined for this row"). */
  datatype Option<+T> = None | Some(value: T)

  /** The outcome of an operation that pandas may reject with an exception. */
  datatype Result<+T, +E> = Ok(value: T) | Err(error: E)
}
