/** The optional value used for readings that may fail to decode. */
module Wrappers {
  datatype Option<+T> = None | Some(value: T)
}
