/** Option and Result, the two failure-aware wrappers the model uses. */
module Wrappers {

  /** A value that may be absent (Python's `None`). */
  datatype Option<+T> = None | Some(value: T) {
    /** The wrapped value, or `default` when absent. */
    function GetOr(default: T): T
    {
      match this
      case Some(v) => v
      case None => default
    }
  }

  /** The outcome of a call into a collaborator that may raise: its value, or the text of the exception. */
  datatype Result<+R> = Success(value: R) | Failure(error: string)
}
