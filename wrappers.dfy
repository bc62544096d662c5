/** The usual optional value, standing for a nullable reference. */
module Wrappers {
  datatype Option<+T> = None | Some(value: T)
}
