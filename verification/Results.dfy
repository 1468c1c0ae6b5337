/** Options and results, and the check that turns a broken condition into an error. */
module Results {
  datatype Option<+T> = None | Some(value: T)

  datatype Result<+T, +E> = Success(value: T) | Failure(error: E) {
    predicate IsFailure() {
      Failure?
    }

    function PropagateFailure<U>(): Result<U, E>
      requires Failure?
    {
      Failure(error)
    }

    function Extract(): T
      requires Success?
    {
      value
    }
  }

  datatype Check<+E> = Holds | Broken(error: E) {
    predicate IsFailure() {
      Broken?
    }

    function PropagateFailure<U>(): Result<U, E>
      requires Broken?
    {
      Failure(error)
    }
  }

  function Need<E>(condition: bool, error: E): Check<E> {
    if condition then Holds else Broken(error)
  }
}
