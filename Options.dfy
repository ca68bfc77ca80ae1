/** `T | undefined` values such as an unselected date picker. */
module Options {
  datatype Option<+T> = None | Some(value: T)
}
