/** The optional value used for decoded bodies, header lookups and parses. */
module Wrappers {
  datatype Option<+T> = None | Some(value: T)
}
