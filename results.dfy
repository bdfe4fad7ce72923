/** Failure-compatible wrappers shared by the other modules: an optional value
    and the outcome of a step that either yields a value or raises. */
module Results {

  datatype Option<+T> = None | Some(value: T)

  /** `Err` stands for a Python exception that propagates to the caller. */
  datatype Result<+T, +E> = Ok(value: T) | Err(error: E) {
    predicate IsFailure() {
      Err?
    }

    function PropagateFailure<U>(): Result<U, E>
      requires Err?
    {
      Err(error)
    }

    function Extract(): T
      requires Ok?
    {
      value
    }
  }
}
