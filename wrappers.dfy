/** The optional value used for "no completed frame", "no mask" and similar results. */
module Wrappers {

  datatype Option<+T> = None | Some(value: T)
}
