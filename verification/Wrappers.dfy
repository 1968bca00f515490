/** A value that may be absent: Python's `None`, or a failed read. */
module Wrappers {
  datatype Option<+T> = None | Some(value: T)
}
