/** Optional values, used where the daemon returns nil. */
module Options {
  datatype Option<+T> = None | Some(value: T)
}
