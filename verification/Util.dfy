/** Small datatypes shared by the modules: the source's `None` and its exceptions. */
module Util {

  datatype Option<+T> = None | Some(value: T)

  /** A returned value, or the refusal the source raises instead. */
  datatype Result<+T, +E> = Ok(value: T) | Err(error: E) {
    predicate IsFailure() {
      Err?
    }

    function PropagateFailure<U>(): Result<U, E>
      requires Err?
    {
      Err(error)
    }

    function Extract(): T
      requires Ok?
    {
      value
    }
  }
}
