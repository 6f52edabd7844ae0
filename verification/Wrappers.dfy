/** The optional value the other modules use for nullable fields and absent results. */
module Wrappers {
  datatype Option<+T> = None | Some(value: T)
}
