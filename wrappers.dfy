/** The optional value used throughout the model for JavaScript's `undefined`/`null`,
    and the outcome of a step that may throw. */
module Wrappers {

  datatype Option<+T> = None | Some(value: T) {

    /** The value, or `default` when there is none. */
    function GetOr(default: T): T {
      match this
      case Some(v) => v
      case None => default
    }
  }

  /** A value, or the text of the exception thrown instead. */
  datatype Result<+T> = Ok(value: T) | Err(error: string)
}
