module Wrappers {
  /** A value that may be absent: null, undefined or false in the JavaScript source. */
  datatype Option<+T> = None | Some(value: T)
}
