/** Optional values, standing for Python's `None` and for nullable foreign keys. */
module Options {
  datatype Option<+T> = None | Some(value: T)
}
