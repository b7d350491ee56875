// A value that may be missing: a null pointer, a failed lookup, a process that exits.
module Options {
  datatype Option<+T> = None | Some(value: T)
}
