/** Results that may be missing or may be errors. */
module Wrappers {

  datatype Option<+T> = None | Some(value: T)

  /** Failure-compatible: `:-` passes an error on. */
  datatype Result<+T, +E> = Ok(value: T) | Err(error: E) {
    predicate IsFailure() { Err? }

    function PropagateFailure<U>(): Result<U, E>
      requires Err?
    {
      Err(error)
    }

    function Extract(): T
      requires Ok?
    {
      value
    }
  }
}
