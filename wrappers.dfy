/** The optional-value type used for document fields that may be absent. */
module Wrappers {
  datatype Option<+T> = None | Some(value: T)
}
