/** The optional result of a call that can fail. */
module Wrappers {
  datatype Option<+T> = None | Some(value: T)
}
