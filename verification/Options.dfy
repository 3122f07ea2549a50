/** Optional values, used wherever the program has a nil pointer or a missing result. */
module Options {
  datatype Option<+T> = None | Some(value: T)
}
