/** The optional value used throughout the model in place of Go's nil pointers. */
module Wrappers {
  datatype Option<+T> = None | Some(value: T)
}
