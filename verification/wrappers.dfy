/** The conventional present/absent value, used for JavaScript's optional arguments and fields. */
module Wrappers {

  datatype Option<+T> = None | Some(value: T)
}
