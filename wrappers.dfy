/** The optional-value datatype used for Go's `(value, err)` returns. */
module Wrappers {

  datatype Option<+T> = None | Some(value: T)
}
