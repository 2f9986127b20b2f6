/** Nullable values. */
module Options {
  datatype Option<+T> = None | Some(value: T)
}
