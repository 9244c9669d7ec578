/** Values that may be absent: Python's `None`, JavaScript's `null`. */
module Optional {
  datatype Option<+T> = None | Some(value: T)
}
