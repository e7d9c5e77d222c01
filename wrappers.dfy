/** The optional value used wherever the app has a value that may be absent
    (`undefined`, a missing field, a lookup that finds nothing). */
module Wrappers {
  datatype Option<+T> = None | Some(value: T)
}
