/** An optional value: `None` stands for an undefined numeric result (a NaN). */
module Wrappers {
  datatype Option<+T> = None | Some(value: T)
}
