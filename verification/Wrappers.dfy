module Wrappers {
  /** A value that the source may leave null. */
  datatype Option<+T> = None | Some(value: T)
}
