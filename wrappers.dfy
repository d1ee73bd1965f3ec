/** The optional value, used for a Go pointer or interface value that may be nil. */
module Wrappers {

  datatype Option<+T> = None | Some(value: T)
}
