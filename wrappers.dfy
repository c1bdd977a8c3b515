/** Small failure-carrying datatypes shared by the other modules. */
module Wrappers {

  datatype Option<+T> = None | Some(value: T)

  /** Pass, or Fail with the reason; used for operations that return nothing on success. */
  datatype Outcome<+E> = Pass | Fail(error: E)
}
