/** Shared result and option types. */
module Wrappers {
  datatype Option<+T> = None | Some(value: T)
}
