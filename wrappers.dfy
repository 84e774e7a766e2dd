/** The optional-value type used where the source can fail to find something. */
module Wrappers {
  datatype Option<+T> = None | Some(value: T)
}
