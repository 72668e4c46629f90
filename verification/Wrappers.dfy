/** Shared failure-free wrappers. */
module Wrappers {
  datatype Option<+T> = None | Some(value: T)
}
