/** The optional value returned by `next(..., None)` scans. */
module Wrappers {
  datatype Option<+T> = None | Some(value: T)
}
