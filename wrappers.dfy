/** Failure-compatible wrappers shared by the modules of this project. */
module Wrappers {

  /** A value that may be absent: JavaScript's `undefined` / `null` results. */
  datatype Option<+T> = None | Some(value: T)

  /** The outcome of an operation that either completes or reports an error
      (a thrown `Error` or a `console.error` refusal in the source). */
  datatype Outcome<+E> = Pass | Fail(error: E)

  /** A value or the error that prevented computing it. */
  datatype Result<+T, +E> = Success(value: T) | Failure(error: E)
}
