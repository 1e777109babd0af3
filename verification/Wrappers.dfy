/** The optional value used wherever the source has an absent or undefined one. */
module Wrappers {
  datatype Option<+T> = None | Some(value: T)
}
