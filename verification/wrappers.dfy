/** Failure-carrying values shared by every module of the model. */
module Wrappers {

  /** A value that may be absent; `None` stands for JavaScript's `undefined`. */
  datatype Option<+T> = None | Some(value: T)

  /** The outcome of an operation that may throw: `Throw` carries the thrown message. */
  datatype Outcome<+T> = Ok(value: T) | Throw(message: string)
}
