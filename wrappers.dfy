/** Failure-carrying values shared by the handlers. */
module Wrappers {

  datatype Option<T> = None | Some(value: T)

  /** The value of an awaited call or of a check that may throw: the thrown error keeps its message. */
  datatype Result<T> = Ok(value: T) | Err(error: string)

  /** An awaited step whose value the handler does not use. */
  datatype Outcome = Pass | Fail(error: string)
}
