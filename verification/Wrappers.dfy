/** A value that may be missing, such as the null pointer of a task. */
module Wrappers {
  datatype Option<+T> = None | Some(value: T)
}
