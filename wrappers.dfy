/** Rust's `Option<T>`, used for the remembered window id and position and for
    the outcome of hotkey decoding. */
module Wrappers {

  datatype Option<+T> = None | Some(value: T)
}
