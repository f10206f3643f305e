/** The `Option` of the Rust source. */
module Options {
  datatype Option<+T> = None | Some(value: T)
}
