/** The optional value that stands for a C++ null pointer result. */
module Wrappers {
  datatype Option<+T> = None | Some(value: T)
}
