/** Failure-carrying values shared by the other modules. */
module Wrappers {

  /** A value that may be missing; used where the source panics or returns an error. */
  datatype Option<+T> = None | Some(value: T)
}
