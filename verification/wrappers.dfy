/** Option and Result: the failure-compatible datatypes the model threads
    through every operation that can raise in the PHP code. */
module Wrappers {

  datatype Option<+T> = None | Some(value: T) {
    /** The carried value, or `default` when there is none. */
    function OrElse(default: T): T {
      match this
      case Some(v) => v
      case None => default
    }
  }

  /** `Ok` carries the new state, `Err` the reason an exception was thrown. */
  datatype Result<+T, +E> = Ok(value: T) | Err(error: E) {
    predicate IsFailure() {
      Err?
    }

    function PropagateFailure<U>(): Result<U, E>
      requires Err?
    {
      Err(error)
    }

    function Extract(): T
      requires Ok?
    {
      value
    }
  }
}
