/** The optional value used throughout the model (Rust's `Option`, JavaScript's `undefined`). */
module Wrappers {

  datatype Option<+T> = None | Some(value: T)
}
