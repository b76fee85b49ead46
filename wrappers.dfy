/** The optional value used for absent fields and undefined results. */
module Wrappers {
  datatype Option<+T> = None | Some(value: T)
}
