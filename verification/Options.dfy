/** A value that may be absent: Go's nil, or the false of a comma-ok read. */
module Options {
  datatype Option<+T> = None | Some(value: T)
}
