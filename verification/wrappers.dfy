/** Optional values and error returns.

    Go functions in gtrace return `(value, error)` pairs or nil pointers; the
    model writes them as `Result` and `Option`.  An error keeps the message the
    Go code builds, so contracts can talk about which error is returned. */
module Wrappers {

  datatype Option<+T> = None | Some(value: T) {
    function GetOr(default: T): T {
      match this
      case Some(v) => v
      case None => default
    }
  }

  datatype Result<+T> = Ok(value: T) | Err(msg: string) {
    predicate IsFailure() {
      Err?
    }

    function PropagateFailure<U>(): Result<U>
      requires Err?
    {
      Err(msg)
    }

    function Extract(): T
      requires Ok?
    {
      value
    }
  }
}
