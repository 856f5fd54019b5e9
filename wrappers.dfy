/** A value that may be absent: a dialog that was cancelled, a merge mode that is not selected. */
module Wrappers {
  datatype Option<+T> = None | Some(value: T)
}
