/** Optional values and failure-carrying results, used where the source has
    optional fields and thrown errors. */
module Outcomes {

  /** An optional field of a request object (`amount?`, `percentage?`). */
  datatype Option<+T> = None | Some(value: T)

  /** The value of a computation that either succeeds or throws an error. */
  datatype Result<+T, +E> = Ok(value: T) | Err(error: E)

  /** The outcome of a guard that either passes or throws an error. */
  datatype Outcome<+E> = Pass | Fail(error: E)
}
