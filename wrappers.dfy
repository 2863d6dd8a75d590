/** `Option`, as Rust's `Option` is used here: a value that may be absent. */
module Wrappers {
  datatype Option<T> = None | Some(value: T)
}
