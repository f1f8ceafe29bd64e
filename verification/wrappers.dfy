/** Failure-compatible result types used by the loaders and the reconciliation engine.
- Option<T>: a value that may be missing (a null cell of a table)
- Outcome<E>: a check that passes or fails with an error
- Result<R, E>: a value or an error
 */
module Wrappers {

  datatype Option<+T> = None | Some(value: T)

  datatype Outcome<+E> = Pass | Fail(error: E)

  datatype Result<+R, +E> = Success(value: R) | Failure(error: E)
}
