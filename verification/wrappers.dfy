/** The optional value used wherever the Swift code has an optional (`URL?`, `Bool?`, `Date?`). */
module Wrappers {

  datatype Option<+T> = None | Some(value: T)
}
