/** An optional value: `None` stands for JavaScript's NaN, null or undefined. */
module Wrappers {
  datatype Option<T> = None | Some(value: T)
}
