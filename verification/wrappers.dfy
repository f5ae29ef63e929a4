/** Failure-carrying values used in place of the source's exceptions. */
module Wrappers {

  /** An optional value: `None` stands for "nothing to report yet". */
  datatype Option<+T> = None | Some(value: T)

  /** Either a value or the exception the source would raise instead. */
  datatype Result<+T, +E> = Success(value: T) | Failure(error: E)
}
