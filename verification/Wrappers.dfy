/** Failure-compatible results shared by the other modules. */
module Wrappers {

  /** A value that may be missing: null, undefined or a number that is not finite. */
  datatype Option<+T> = None | Some(value: T)

}
