/** Failure-compatible wrappers used for Python's exceptions and `None`. */
module Results {

  datatype Option<+T> = None | Some(value: T)

  /** A value, or the error that the Python code would raise instead of returning. */
  datatype Result<+T, +E> = Ok(value: T) | Err(error: E) {

    predicate IsFailure() {
      Err?
    }

    function PropagateFailure<U>(): Result<U, E>
      requires Err?
    {
      Err(error)
    }

    function Extract(): T
      requires Ok?
    {
      value
    }
  }
}
