/** A value that may be absent: the source's null or a missing row. */
module Wrappers {
  datatype Option<+T> = None | Some(value: T)
}
