/** The optional value used wherever the program works with Ruby's `nil`. */
module Wrappers {

  /** `None` stands for `nil`, `Some(v)` for a present value. */
  datatype Option<+T> = None | Some(value: T)
}
