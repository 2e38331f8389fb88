/** Failure-carrying values shared by the other modules: Python's raised
    exceptions become `Failure`/`Fail` values instead of preconditions. */
module Wrappers {

  datatype Option<+T> = None | Some(value: T)

  datatype Result<+R, +E> = Success(value: R) | Failure(error: E)

  /** The outcome of a call that returns nothing useful: it either completes or raises. */
  datatype Outcome<+E> = Pass | Fail(error: E)
}
