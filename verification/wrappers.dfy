/** Option and Result, the two failure-carrying types the codec returns. */
module Wrappers {

  /** A value that may be absent; stands for a C# `null` reference or an empty `Nullable<T>`. */
  datatype Option<+T> = None | Some(value: T) {

    /** The carried value, or `default` when absent. */
    function GetOr(default: T): T {
      match this
      case Some(v) => v
      case None => default
    }
  }

  /** The outcome of an operation that either returns a value or throws. */
  datatype Result<+T, +E> = Ok(value: T) | Err(error: E) {

    /** Whether `:-` stops here and hands the exception on. */
    predicate IsFailure() {
      Err?
    }

    /** The same exception, as the result of the enclosing computation. */
    function PropagateFailure<U>(): Result<U, E>
      requires Err?
    {
      Err(error)
    }

    /** The value `:-` binds when there is no exception. */
    function Extract(): T
      requires Ok?
    {
      value
    }
  }
}
