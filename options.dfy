/** Optional values, standing for Rust's `Option` and for operations that panic. */
module Options {

  datatype Option<T> = None | Some(value: T)

}
