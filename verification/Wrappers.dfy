/** The optional value used wherever the program stores null or undefined. */
module Wrappers {
  datatype Option<+T> = None | Some(value: T)
}
