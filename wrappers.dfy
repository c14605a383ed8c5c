/** Small failure-compatible datatypes shared by the model. */
module Wrappers {

  /** Python's `Optional[T]`: `None` or a value. */
  datatype Option<T> = None | Some(value: T) {
    function GetOr(default: T): T {
      match this
      case Some(v) => v
      case None => default
    }
  }

  /** A computation that either produced a value or raised an exception. */
  datatype Result<T, E> = Success(value: T) | Failure(error: E)

  /** The outcome of a call into code outside the model (a network client, a worker thread):
      it returned a value, or it raised an exception whose `str()` is `message`. */
  datatype Call<T> = Returned(value: T) | Raised(message: string)
}
