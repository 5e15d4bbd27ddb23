/** The optional value used wherever the C++ code reports failure through a
    false return and an untouched out-parameter. */
module Wrappers {
  datatype Option<+T> = None | Some(value: T)
}
