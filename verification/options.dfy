/** The absence or presence of a value. */
module Options {
  datatype Option<+T> = None | Some(value: T)
}
