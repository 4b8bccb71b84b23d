module Results {
  datatype Option<+T> = None | Some(value: T)

  /** An error thrown by the event store's code is an `Err`. */
  datatype Result<+T, +E> = Ok(value: T) | Err(error: E)

  /** How a call of a process that may die ends: normally, by a thrown error, or with the process. */
  datatype Ending<+T, +E> = Done(value: T) | Threw(failure: E) | Crashed
  {
    predicate IsFailure() { !Done? }

    function PropagateFailure<U>(): Ending<U, E>
      requires IsFailure()
    {
      match this
      case Threw(f) => Threw(f)
      case Crashed => Crashed
    }

    function Extract(): T
      requires Done?
    { value }
  }
}
