/** The optional value that stands for the NULL results of the C++ code. */
module Wrappers {
  datatype Option<+T> = None | Some(value: T)
}
