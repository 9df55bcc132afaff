/** Option and Result, the two shapes the Rust code returns its absent values and errors in. */
module Wrappers {
  datatype Option<T> = None | Some(value: T)
  {
    predicate IsFailure() { None? }
    function PropagateFailure<U>(): Option<U> requires None? { None }
    function Extract(): T requires Some? { value }
    /** The value, or `default` when there is none. */
    function GetOr(default: T): T { if Some? then value else default }
  }

  datatype Result<T, E> = Ok(value: T) | Err(error: E)
  {
    predicate IsFailure() { Err? }
    function PropagateFailure<U>(): Result<U, E> requires Err? { Err(error) }
    function Extract(): T requires Ok? { value }
  }

  /** The `Ok(())` of a fallible operation that returns nothing. */
  datatype Unit = Unit
}
