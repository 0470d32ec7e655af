/** Optional values and error results: Go's nil-or-value and (value, error) returns. */
module Results {

  /** A value that may be absent (a nil slice, a failed lookup). */
  datatype Option<+T> = None | Some(value: T)

  /** A value or the message of the error that replaced it. */
  datatype Result<+T> = Ok(value: T) | Err(msg: string) {
    predicate IsFailure() { Err? }
    function PropagateFailure<U>(): Result<U>
      requires Err?
    {
      Err(msg)
    }
    function Extract(): T
      requires Ok?
    {
      value
    }
  }

  /** Success, or the error message of a Go function that returns only `error`. */
  datatype Outcome = Pass | Fail(msg: string)
}
