/** The optional value used wherever the front end holds `null` or a missing key. */
module Wrappers {

  datatype Option<+T> = None | Some(value: T)
}
