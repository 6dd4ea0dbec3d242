/** The optional value the Rust code returns from its queries and cursor moves. */
module Wrappers {
  datatype Option<+T> = None | Some(value: T)
}
