/** Stand-ins for `None`, for raised exceptions and for returned values. */
module Wrappers {
  datatype Option<+T> = None | Some(value: T)

  /** `Err` is an exception that leaves the call. */
  datatype Result<+T, +E> = Ok(value: T) | Err(error: E) {
    predicate IsFailure() {
      Err?
    }

    function PropagateFailure<U>(): Result<U, E>
      requires Err?
    {
      Err(error)
    }

    function Extract(): T
      requires Ok?
    {
      value
    }
  }
}
