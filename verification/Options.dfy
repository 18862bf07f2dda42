module Options {
  /** A value that may be missing: Python's None, a row a query does not find. */
  datatype Option<+T> = None | Some(value: T)
}
