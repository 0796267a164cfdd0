/** The optional value used where the source has a nil pointer or a missing row. */
module Options {
  datatype Option<+T> = None | Some(value: T)
}
