/** Failure-carrying datatypes shared by every module of the model. */
module Wrappers {

  /** A value that may be absent: JavaScript's `undefined`/`null` next to a present value. */
  datatype Option<+T> = None | Some(value: T)

  /** The result of a JavaScript computation that may throw instead of returning. */
  datatype Outcome<+T> = Ok(value: T) | Threw(error: string)
}
