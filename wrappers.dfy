/** Option, Result and Outcome: the failure-compatible wrappers the model uses
    in place of PHP's null results and thrown exceptions. */
module Wrappers {

  datatype Option<+T> = None | Some(value: T)

  datatype Result<+T, +E> = Ok(value: T) | Err(error: E) {

    predicate IsFailure() {
      Err?
    }

    function PropagateFailure<U>(): Result<U, E>
      requires Err?
    {
      Err(error)
    }

    function Extract(): T
      requires Ok?
    {
      value
    }
  }

  /** What a method that may throw reports: it returned, or it threw `error`. */
  datatype Outcome<+E> = Pass | Fail(error: E)

  function OutcomeOf<T, E>(r: Result<T, E>): Outcome<E>
  {
    match r
    case Ok(_) => Pass
    case Err(e) => Fail(e)
  }
}
