// An optional value, for what the source returns as nil or as a missing map entry.

module Options {
  datatype Option<T> = None | Some(value: T)
}
