/** Failure-compatible results, used wherever the simulator stops the whole run on an error. */
module Outcomes {

  datatype Option<+T> = None | Some(value: T)

  datatype Result<+T, +E> = Success(value: T) | Failure(error: E) {
    predicate IsFailure() {
      Failure?
    }

    function PropagateFailure<U>(): Result<U, E>
      requires Failure?
    {
      Failure(error)
    }

    function Extract(): T
      requires Success?
    {
      value
    }
  }

  /** What a method reports that only changes state: it either went through or called for the run to stop. */
  datatype Outcome<+E> = Pass | Fail(error: E) {
    predicate IsFailure() {
      Fail?
    }

    function PropagateFailure(): Outcome<E>
      requires Fail?
    {
      this
    }
  }

  /** The result of a method that went through with value `t`, or else failed. */
  function Done<T, E>(o: Outcome<E>, t: T): Result<T, E> {
    match o
    case Pass => Success(t)
    case Fail(e) => Failure(e)
  }
}
