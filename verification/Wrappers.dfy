/** The conventional optional value, used wherever the source has a missing key, a nil pointer or an undefined field. */
module Wrappers {
  datatype Option<+T> = None | Some(value: T)
}
