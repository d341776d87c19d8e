/** The Option datatype used wherever the source has a nil pointer, a null or a missing value. */
module Wrappers {
  datatype Option<+T> = None | Some(value: T)
}
