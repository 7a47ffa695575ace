/** Option and Result, the two Rust enums the sizer's inputs and outputs are built from. */
module Wrappers {

  /** Rust's `Option<T>`. */
  datatype Option<+T> = None | Some(value: T) {

    /** Rust's `Option::map`. */
    function Map<U>(f: T -> U): Option<U>
    {
      match this
      case None => None
      case Some(v) => Some(f(v))
    }

    /** Rust's `Option::map_or`: `default` for `None`, `f` of the value otherwise. */
    function MapOr<U>(default: U, f: T -> U): U
    {
      match this
      case None => default
      case Some(v) => f(v)
    }
  }

  /** Rust's `Result<T, E>`; here also the outcome of a call that may panic. */
  datatype Result<+T, +E> = Success(value: T) | Failure(error: E)
}
