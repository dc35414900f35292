/** The optional value used wherever the Rust code uses `Option<T>`. */
module Wrappers {

  datatype Option<+T> = None | Some(value: T)
}
