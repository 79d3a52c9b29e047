/** The optional value used by every model in place of a missing value. */
module Wrappers {
  datatype Option<+T> = None | Some(value: T)
}
