/** Small failure-carrying datatypes shared by the model. */
module Wrappers {

  /** A value that may be absent. */
  datatype Option<+T> = None | Some(value: T)

  /** The result of an operation that returns nothing on success and an error otherwise
      (Go's `error` return: `nil` is `Pass`). */
  datatype Outcome<+E> = Pass | Fail(error: E)
}
