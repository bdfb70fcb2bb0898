/** Option and Result with the members that make them usable with `:-`,
    standing in for Rust's `Option`, `Result` and the `?` operator. */
module Wrappers {

  datatype Option<+T> = None | Some(value: T) {

    /** Rust's `Option::ok_or`: `Some(v)` becomes `Ok(v)`, `None` becomes `Err(e)`. */
    function OkOr<E>(e: E): (r: Result<T, E>)
    {
      match this
      case Some(v) => Ok(v)
      case None => Err(e)
    }
  }

  datatype Result<+T, +E> = Ok(value: T) | Err(error: E) {

    predicate IsFailure() {
      Err?
    }

    function PropagateFailure<U>(): Result<U, E>
      requires Err?
    {
      Err(error)
    }

    function Extract(): T
      requires Ok?
    {
      value
    }
  }
}
