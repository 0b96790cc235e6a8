/** The Some/None datatype the other modules use in place of Python's None. */
module Options {
  datatype Option<+T> = None | Some(value: T)
}
