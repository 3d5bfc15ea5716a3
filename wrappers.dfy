/** The conventional optional value, used for Go's `(value, ok)` and nil-able results. */
module Wrappers {

  datatype Option<+T> = None | Some(value: T)
}
