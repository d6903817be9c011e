/** An optional value: a JavaScript `null` from storage, an unset PHP offset, no outbound call. */
module Wrappers {
  datatype Option<+T> = None | Some(value: T)
}
