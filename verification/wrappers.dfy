/** Outcome of an operation of the testbench or the generator scripts that can raise. */
module Wrappers {

  /** The value computed, or the exception the Python code would raise instead. */
  datatype Result<+T, +E> = Ok(value: T) | Err(error: E)
}
