/** Small failure-carrying datatypes shared by the other modules. */
module Wrappers {

  datatype Option<+T> = None | Some(value: T)

  /** The outcome of a validation: either it passes, or it fails with an error. */
  datatype Outcome<+E> = Pass | Fail(error: E)
}
