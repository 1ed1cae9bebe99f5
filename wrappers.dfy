/** An optional value: a request field that may be absent, a date that may not be given. */
module Wrappers {

  datatype Option<+T> = None | Some(value: T)
}
