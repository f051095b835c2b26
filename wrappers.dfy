/** The optional value used for quotes that may be absent and timestamps that may not parse. */
module Wrappers {

  datatype Option<+T> = None | Some(value: T)
}
