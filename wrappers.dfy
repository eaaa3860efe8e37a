/** The Option type used wherever the Python code returns `None` for "no value". */
module Wrappers {

  datatype Option<+T> = None | Some(value: T)
}
