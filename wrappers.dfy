/** A value that may be absent: stands for C#'s `null` on reference types. */
module Wrappers {
  datatype Option<+T> = None | Some(value: T)
}
