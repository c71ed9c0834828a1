/** The Some/None datatype used for pointers that may be null and for absent values. */
module Wrappers {
  datatype Option<+T> = None | Some(value: T)
}
