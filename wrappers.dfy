/** The usual Some/None datatype, used wherever the Python code has a value or `None`. */
module Wrappers {

  datatype Option<+T> = None | Some(value: T)
}
