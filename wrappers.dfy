/** Rust's `Option<T>`, used for `last_read_char`, token payloads and results. */
module Wrappers {

  datatype Option<+T> = None | Some(value: T)
}
