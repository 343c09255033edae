/** Failure-carrying wrappers used across the model. */
module Wrappers {

  /** A value that may be absent, such as an optional field left unset. */
  datatype Option<+T> = None | Some(value: T) {

    /** The carried value, or `default` when absent. */
    function GetOr(default: T): T
    {
      match this
      case Some(v) => v
      case None => default
    }
  }

  /** The outcome of a step that either passes or fails with an error. */
  datatype Outcome<+E> = Pass | Fail(error: E)

  /** A value on success, an error otherwise. */
  datatype Result<+T, +E> = Ok(value: T) | Err(error: E)
}
