/** Option values: `None` stands for a number field whose text is not a number (NaN). */
module Wrappers {
  datatype Option<+T> = None | Some(value: T)
}
