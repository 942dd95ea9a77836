/** Values that may be missing: a Python None, or the result of a call that raised. */
module Options {
  datatype Option<+T> = None | Some(value: T)
}
