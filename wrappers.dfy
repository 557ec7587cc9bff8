/** Option and Result, the two failure-carrying wrappers the model uses. */
module Wrappers {

  /** A value that may be absent: TypeScript's `undefined`/`null`, Python's missing key. */
  datatype Option<+T> = None | Some(value: T)

  /** The outcome of a call that can fail: a network request, a worker task. */
  datatype Result<+T, +E> = Success(value: T) | Failure(error: E)
}
