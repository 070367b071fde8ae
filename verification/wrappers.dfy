/** The optional value used for the record fields the source leaves as None. */
module Wrappers {

  datatype Option<+T> = None | Some(value: T)
}
