module Options {
  /** A pointer or result that may be missing. */
  datatype Option<+T> = None | Some(value: T)
}
