/** Values that may be absent, as nil is in Go. */
module Options {
  datatype Option<+T> = None | Some(value: T)
}
