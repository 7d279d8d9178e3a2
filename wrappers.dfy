/** An optional value: `None` stands for a missing sample (NumPy's NaN). */
module Wrappers {
  datatype Option<+T> = None | Some(value: T)
}
