/** Optional values and failure-carrying results, usable with `:-`. */
module Results {

  /** An optional value: `None` stands for an absent (undefined) field or argument. */
  datatype Option<+T> = None | Some(value: T) {

    /** The carried value, or `default` when absent. */
    function GetOr(default: T): T {
      match this
      case Some(v) => v
      case None => default
    }
  }

  /** Either a value or the error a handler throws. */
  datatype Result<+T, +E> = Ok(value: T) | Err(error: E) {

    predicate IsFailure() {
      Err?
    }

    function PropagateFailure<U>(): Result<U, E>
      requires Err?
    {
      Err(error)
    }

    function Extract(): T
      requires Ok?
    {
      value
    }
  }
}
