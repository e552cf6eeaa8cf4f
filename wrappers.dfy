/** Option, for Go's `(value, found)` and `*T`-or-nil results. */
module Wrappers {

  datatype Option<+T> = None | Some(value: T)
}
