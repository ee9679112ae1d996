/** A value that may be absent: a NULL pointer in the C sources. */
module Wrappers {
  datatype Option<+T> = None | Some(value: T)
}
