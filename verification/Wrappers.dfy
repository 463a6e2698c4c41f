/** Failure-compatible results shared by every component of the model. */
module Wrappers {

  datatype Option<+T> = None | Some(value: T)

  /** A returned value, or the error a source function throws. */
  datatype Result<+T, +E> = Ok(value: T) | Err(error: E) {
    predicate IsFailure() {
      Err?
    }

    function PropagateFailure<U>(): Result<U, E>
      requires Err?
    {
      Err(error)
    }

    function Extract(): T
      requires Ok?
    {
      value
    }
  }
}
