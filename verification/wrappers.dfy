/** Optional values and results with an error case, standing in for
    JavaScript's `null`/`undefined` and for a thrown exception. */
module Wrappers {

  /** `None` is `null` or `undefined`; `Some(v)` is a present value. */
  datatype Option<+T> = None | Some(value: T)

  /** The outcome of an operation that can fail instead of returning. */
  datatype Result<+T, +E> = Success(value: T) | Failure(error: E)
}
