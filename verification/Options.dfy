/** Optional values, used wherever the Go code returns a nil pointer or a missing map entry. */
module Options {
  datatype Option<+T> = None | Some(value: T)
}
