/** Failure-compatible wrappers shared by the ledger modules. */
module Wrappers {

  /** A value that may be absent: Python's `None` or a dictionary miss. */
  datatype Option<+T> = None | Some(value: T)

  /** The outcome of a request: a value, or the error the handler reports. */
  datatype Result<+R, +E> = Success(value: R) | Failure(error: E)
}
