/** Optional values, the model's counterpart of nullable columns and of Rust's Option. */
module Wrappers {
  datatype Option<+T> = None | Some(value: T)
}
