/** The Some/None datatype that stands for a value the source may return as `null`. */
module Wrappers {

  datatype Option<+T> = None | Some(value: T)
}
