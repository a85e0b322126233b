/** Option and Result values: an absent payload key, and an operation that
    either succeeds or reports a validation error. */
module Wrappers {

  datatype Option<T> = None | Some(value: T) {

    /** The value, or `default` when absent (Python's `dict.pop(key, default)`). */
    function GetOr(default: T): T {
      if Some? then value else default
    }
  }

  datatype Result<T, E> = Success(value: T) | Failure(error: E)
}
