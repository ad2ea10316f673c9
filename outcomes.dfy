/** Optional values and results with an error, used where the profiler reads
    a field that may be absent or performs a step that may fail. */
module Outcomes {

  datatype Option<T> = None | Some(value: T) {
    /** The value, or `default` when there is none (Python's `.get(key, default)`). */
    function GetOr(default: T): T {
      match this
      case Some(v) => v
      case None => default
    }
  }

  datatype Result<T, E> = Ok(value: T) | Err(error: E)
}
