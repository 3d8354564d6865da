/** The error outcomes of the diet calculator: the exceptions the Python code
    raises are returned as values here. */
module Wrappers {

  /** `ValueError` carries the message the source raises it with; a division by
      zero is Python's `ZeroDivisionError`. */
  datatype Error = ValueError(message: string) | ZeroDivisionError

  datatype Result<T> = Ok(value: T) | Err(error: Error)
}
