/** Option and Result, the two wrappers the rest of the model uses for
    JavaScript's null/undefined and for handlers that refuse an action. */
module Basics {

  datatype Option<+T> = None | Some(value: T) {
    function GetOr(default: T): T {
      match this
      case Some(v) => v
      case None => default
    }
  }

  /** A handler that either succeeds with a value or refuses with a message. */
  datatype Result<+T> = Ok(value: T) | Err(message: string)
}
