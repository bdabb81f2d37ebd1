/** The optional value used throughout the model for "absent" and "failed". */
module Wrappers {
  datatype Option<+T> = None | Some(value: T)
}
