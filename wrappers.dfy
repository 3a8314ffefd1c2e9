/** Optional values and the outcome of a call into a collaborator the model does not see. */
module Wrappers {

  /** Swift's `Optional`. */
  datatype Option<+T> = None | Some(value: T) {

    /** The `??` operator: the wrapped value, or `default` when absent. */
    function GetOr(default: T): T {
      match this
      case Some(v) => v
      case None => default
    }
  }

  /** The outcome of an `async throws` call to the remote service: its value, or the
      description of the error it threw. */
  datatype Outcome<+T> = Success(value: T) | Failure(message: string)
}
