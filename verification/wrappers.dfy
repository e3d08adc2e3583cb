/** The optional value used for Go's nil / Python's None results. */
module Wrappers {
  datatype Option<T> = None | Some(value: T)
}
