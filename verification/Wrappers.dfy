/** A value that may be absent: a missing entry, or an operation that raises. */
module Wrappers {

  datatype Option<+T> = None | Some(value: T)
}
