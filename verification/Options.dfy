/** An optional value: Python's `None`-able fields and lookups that may miss. */
module Options {
  datatype Option<+T> = None | Some(value: T)
}
