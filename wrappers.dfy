/** Absent-or-present values, used where the Python code returns `None`. */
module Wrappers {

  datatype Option<+T> = None | Some(value: T)

}
