/** Failure-compatible wrappers shared by every module of the model:
    `Option` stands for Python's `Optional[...]` (None or a value) and
    `Result` for a call that either returns a value or raises. */
module Wrappers {

  datatype Option<+T> = None | Some(value: T) {

    /** The value, or `default` when there is none. */
    function GetOr(default: T): T {
      match this
      case Some(v) => v
      case None => default
    }
  }

  datatype Result<+T, +E> = Success(value: T) | Failure(error: E) {

    /** Forgets the error, as a caller that catches the exception does. */
    function ToOption(): Option<T> {
      match this
      case Success(v) => Some(v)
      case Failure(_) => None
    }
  }
}
