/** Failure-carrying values for operations whose promise may reject. */
module Outcomes {

  /** A value that may be absent, as `null` is in a lookup that misses. */
  datatype Option<+T> = None | Some(value: T)

  /** A promise that resolves with `value` or rejects with `error`. */
  datatype Result<+T, +E> = Success(value: T) | Failure(error: E)

  /** A promise that resolves with nothing or rejects with `error`. */
  datatype Outcome<+E> = Pass | Fail(error: E)
}
