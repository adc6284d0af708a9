/** The Option datatype used for lookups that can miss. */
module Wrappers {
  datatype Option<+T> = None | Some(value: T)
}
