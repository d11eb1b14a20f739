/** The optional value used for every `X | None` of the source. */
module Wrappers {
  datatype Option<+T> = None | Some(value: T)
}
