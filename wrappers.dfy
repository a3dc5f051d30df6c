/** The optional value used for nullable columns and optional claims. */
module Wrappers {
  datatype Option<+T> = None | Some(value: T)
}
