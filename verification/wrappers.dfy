/** Option and Result values for the places where the Python code returns a
    default or raises: `dict.get(key, default)`, a call that may raise, a
    parse that may fail. */
module Wrappers {

  datatype Option<+T> = None | Some(value: T) {

    /** The wrapped value, or `default` when there is none (Python's `d.get(k, default)`). */
    function GetOr(default: T): T
    {
      match this
      case Some(v) => v
      case None => default
    }
  }

  /** The outcome of a Python call that either returns a value or raises an
      exception; `error` carries the exception's message, `str(e)`. */
  datatype Result<+T, +E> = Ok(value: T) | Err(error: E)
}
