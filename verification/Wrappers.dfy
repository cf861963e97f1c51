/** Failure-carrying result types used to model the plugin's exceptions. */
module Wrappers {

  /** A value that may be absent, as a Python `None`. */
  datatype Option<+T> = None | Some(value: T) {
    function GetOr(default: T): T {
      match this
      case Some(v) => v
      case None => default
    }
  }

  /** Either a value or the exception that was raised instead. */
  datatype Result<+T, +E> = Ok(value: T) | Err(error: E) {
    predicate IsFailure() {
      Err?
    }

    function PropagateFailure<U>(): Result<U, E>
      requires Err?
    {
      Err(error)
    }

    function Extract(): T
      requires Ok?
    {
      value
    }
  }

  /** Success, or the exception an operation without a value raised. */
  datatype Outcome<+E> = Pass | Fail(error: E)
}
