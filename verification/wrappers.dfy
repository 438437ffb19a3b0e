/** The optional-value type shared by every module of the model (Rust's `Option`). */
module Wrappers {
  datatype Option<+T> = None | Some(value: T)
}
