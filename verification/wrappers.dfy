/** Option and Result, for absent values and for exceptions that a JavaScript
    function throws or a Python function raises. */
module Wrappers {
  datatype Option<+T> = None | Some(value: T)

  /** A call either returns a value or throws/raises `error`. */
  datatype Result<+T> = Ok(value: T) | Raise(error: Exception)

  /** The class of a thrown or raised exception (`TypeError`, `KeyError`,
      `ValueError`, ...), with its message. */
  datatype Exception = Exception(kind: string, message: string)
}
