/** Option and Result, the two wrappers the model uses for "no match" and for fatal errors. */
module Wrappers {

  datatype Option<+T> = None | Some(value: T)

  /** A recognizer or planner either produces a value or aborts the run with an error. */
  datatype Result<+T, +E> = Ok(value: T) | Err(error: E) {
    predicate IsFailure() { Err? }

    function PropagateFailure<U>(): Result<U, E>
      requires Err?
    {
      Err(error)
    }

    function Extract(): T
      requires Ok?
    {
      value
    }
  }
}
