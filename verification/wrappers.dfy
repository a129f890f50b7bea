/** Failure-compatible wrappers used throughout the model: an optional value
    (a Python value that may be absent, or a `None` result) and a result that
    is either a value or the exception the Python code would raise. */
module Wrappers {

  datatype Option<+T> = None | Some(value: T) {

    /** The value, or `default` when absent (Python's `dict.get(key, default)`). */
    function GetOr(default: T): T {
      match this
      case Some(v) => v
      case None => default
    }
  }

  datatype Result<+R, +E> = Success(value: R) | Failure(error: E) {

    predicate IsFailure() {
      Failure?
    }

    function PropagateFailure<U>(): Result<U, E>
      requires Failure?
    {
      Failure(error)
    }

    function Extract(): R
      requires Success?
    {
      value
    }
  }
}

/** The exceptions the chatbot script can raise while handling one click.
    Nothing in the script catches any of them: each one ends the handler. */
module Errors {

  datatype Error =
    | KeyError(key: string)      // a missing dictionary key, named as in the source
    | IndexError                 // `[0]` on an empty list
    | ClientError(detail: string) // anything raised by the remote generation call, passed through unchanged
}
