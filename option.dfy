// A value that may be absent, for the source's "found" flags and NULL returns.
module Options {
  datatype Option<+T> = None | Some(value: T)
}
