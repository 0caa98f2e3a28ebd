/** The optional value used where the source returns either a string or None. */
module Wrappers {
  datatype Option<+T> = None | Some(value: T)
}
