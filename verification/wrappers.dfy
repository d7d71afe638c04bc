/** Small result types shared by the other modules. */
module Wrappers {

  datatype Option<+T> = None | Some(value: T)

  /** The outcome of a check that either passes or fails with a reason. */
  datatype Outcome<+E> = Pass | Fail(error: E)
}
