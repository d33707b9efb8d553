/** Wrappers used across the model: `Option` for values
    that may be absent and `Result` for operations that raise. */
module Wrappers {

  datatype Option<+T> = None | Some(value: T) {

    /** The wrapped value, or `default` when there is none. */
    function GetOr(default: T): T {
      match this
      case Some(v) => v
      case None => default
    }
  }

  /** `Failure(e)` stands for an exception `e` raised by the modelled code. */
  datatype Result<+R, +E> = Success(value: R) | Failure(error: E) {

    /** The same failure, as a result of another value type. */
    function PropagateFailure<U>(): Result<U, E>
      requires Failure?
    {
      Failure(error)
    }
  }
}
