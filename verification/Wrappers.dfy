/** Result and option types standing for the service's exceptions and nullable rows. */
module Wrappers {

  datatype Option<+T> = None | Some(value: T)

  /** What a call that may throw delivers: a value, or the error it threw. Usable with `:-`. */
  datatype Result<+T, +E> = Ok(value: T) | Err(error: E) {
    predicate IsFailure() {
      Err?
    }

    function PropagateFailure<U>(): Result<U, E>
      requires Err?
    {
      Err(error)
    }

    function Extract(): T
      requires Ok?
    {
      value
    }
  }
}
