/** The one wrapper the whole project shares: a value that may be absent. */
module Wrappers {

  datatype Option<+T> = None | Some(value: T)
}
