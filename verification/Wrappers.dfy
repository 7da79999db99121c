/** An optional value: a database row that may be absent, a step that may fail. */
module Wrappers {
  datatype Option<+T> = None | Some(value: T)
}
