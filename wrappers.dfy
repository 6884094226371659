/** Option and Result, plus Completion: how a Python call ends, either by
    returning a value or by raising one of the exceptions the monitor lets
    escape. */
module Wrappers {

  datatype Option<+T> = None | Some(value: T) {
    function GetOr(default: T): T {
      match this
      case Some(v) => v
      case None => default
    }
  }

  datatype Result<+R, +E> = Success(value: R) | Failure(error: E) {
    predicate IsFailure() {
      Failure?
    }

    function PropagateFailure<U>(): Result<U, E>
      requires Failure?
    {
      Failure(error)
    }

    function Extract(): R
      requires Success?
    {
      value
    }
  }

  /** The Python exceptions that cross a function boundary in the monitor. */
  datatype Exception =
    | ValueError   // int() of text that is not an integer
    | ImportError  // the twilio package is not installed
    | OSError      // a socket-level failure (refused connection, DNS, TLS)

  /** The way a Python call ends: it returns a value or it raises. */
  datatype Completion<+T> = Returned(value: T) | Raised(exception: Exception) {
    predicate IsFailure() {
      Raised?
    }

    function PropagateFailure<U>(): Completion<U>
      requires Raised?
    {
      Raised(exception)
    }

    function Extract(): T
      requires Returned?
    {
      value
    }
  }
}
