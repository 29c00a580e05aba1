/** An optional value: what the C code returns as a pointer that may be NULL. */
module Wrappers {
  datatype Option<+T> = None | Some(value: T)
}
