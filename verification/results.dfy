/** Failure-compatible wrappers used by the protocol model: an optional value and
    a value-or-error result that works with Dafny's `:-` operator. */
module Results {

  /** A value that may be absent (a JavaScript property that was never set). */
  datatype Option<+T> = None | Some(value: T)

  /** Either a successful value or the error a JavaScript `throw` would raise. */
  datatype Result<+T, +E> = Ok(value: T) | Err(error: E) {

    predicate IsFailure() {
      Err?
    }

    function PropagateFailure<U>(): Result<U, E>
      requires Err?
    {
      Err(error)
    }

    function Extract(): T
      requires Ok?
    {
      value
    }
  }
}
