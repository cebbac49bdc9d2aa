/** The optional value used across the model in place of Go's nil values and
    two-result lookups. */
module Wrappers {
  datatype Option<+T> = None | Some(value: T)
}
