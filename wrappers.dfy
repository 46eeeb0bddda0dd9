/** An optional value: what a C pointer that may be NULL stands for. */
module Wrappers {
  datatype Option<+T> = None | Some(value: T)
}
