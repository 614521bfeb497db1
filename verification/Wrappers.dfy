/** Shared wrappers: a value that may be absent, and how a changing API call ends. */
module Wrappers {
  datatype Option<T> = None | Some(value: T)

  /** A failed call may nevertheless have taken effect. */
  datatype Response = Done | FailedUnchanged | FailedApplied
}
