/** The optional value used across the model for "absent" results. */
module Wrappers {

  datatype Option<+T> = None | Some(value: T)
}
