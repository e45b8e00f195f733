/** The two wrappers the model uses: `Option` for JavaScript's `undefined` and `NaN`,
    `Result` for a parse that either returns a value or throws an error message. */
module Wrappers {

  datatype Option<+T> = None | Some(value: T) {
    /** The value, or `default` when there is none. */
    function GetOr(default: T): T {
      match this
      case Some(v) => v
      case None => default
    }
  }

  datatype Result<+T, +E> = Ok(value: T) | Err(error: E)
}
