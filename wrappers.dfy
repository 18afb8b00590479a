/** Nullable values and the outcome of operations that can throw. */
module Wrappers {

  /** A C# nullable reference: `None` is `null`. */
  datatype Option<+T> = None | Some(value: T) {

    /** The `??` operator: the value, or `default` when null. */
    function GetOr(default: T): T {
      match this
      case Some(v) => v
      case None => default
    }
  }

  /** `string.IsNullOrEmpty`. */
  predicate IsNullOrEmpty(s: Option<string>) {
    s.None? || s.value == ""
  }

  /** The value an operation returns, or the exception it throws. */
  datatype Result<+R, +E> = Ok(value: R) | Err(error: E)
}
