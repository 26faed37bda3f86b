/** Failure-carrying results: the model's stand-in for Java's `null` and thrown exceptions. */
module Wrappers {

  /** A value that may be absent (a Java reference that may be `null`). */
  datatype Option<+T> = None | Some(value: T)

  /** The normal result of a call, or the exception it threw. */
  datatype Result<+T, +E> = Ok(value: T) | Err(error: E)

  /** Completion of a `void` call: it returned, or it threw. */
  datatype Outcome<+E> = Pass | Fail(error: E)
}
