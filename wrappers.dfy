/** Plain result datatypes for the Python code's `None` results and raised exceptions. */
module Wrappers {

  datatype Option<+T> = None | Some(value: T)

  /** The value of a call that either returns `value` or raises `error`. */
  datatype Result<+T, +E> = Success(value: T) | Failure(error: E)

  /** The value of a statement that either completes or raises `error`. */
  datatype Outcome<+E> = Pass | Fail(error: E)
}
