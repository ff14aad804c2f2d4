/** The optional value used wherever the client holds `T | null` or an optional (`?`) field. */
module Wrappers {

  datatype Option<+T> = None | Some(value: T)
}
