/** Python's `None`-or-value and value-or-exception, as datatypes. */
module Outcomes {

  /** A value that may be absent (Python's `None`). */
  datatype Option<+T> = None | Some(value: T) {
    function GetOr(default: T): (v: T)
      ensures Some? ==> v == value
      ensures None? ==> v == default
    {
      match this
      case Some(v) => v
      case None => default
    }
  }

  /** A value, or the exception the Python code would raise instead. */
  datatype Result<+T, +E> = Ok(value: T) | Err(error: E)
}
