/** The optional value used wherever the source returns or receives a Swift optional. */
module Wrappers {

  datatype Option<+T> = None | Some(value: T)
}
