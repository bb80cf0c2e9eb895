/** The optional value used wherever the source has "missing or present". */
module Wrappers {
  datatype Option<T> = None | Some(value: T)
}
