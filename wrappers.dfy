/** Option and Result, the two failure-carrying datatypes used throughout the model. */
module Wrappers {

  /** `None` is an absent value; it is unrelated to Python's `None`, which is `PyValues.PyNone`. */
  datatype Option<+T> = None | Some(value: T)

  /** `Err` carries what the Python code would raise. */
  datatype Result<+T, +E> = Ok(value: T) | Err(error: E)
}
