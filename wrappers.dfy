/** The optional value used for partial conversions and lookups. */
module Wrappers {

  datatype Option<+T> = None | Some(value: T)
}
