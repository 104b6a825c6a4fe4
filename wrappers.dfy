/** A value that may be missing: a cell that `to_numeric`/`to_datetime` could not
    parse, or a blank cell, is `None`. */
module Wrappers {
  datatype Option<+T> = None | Some(value: T)
}
