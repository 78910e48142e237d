/** The Some/None datatype used for "no match" and "not recognised". */
module Wrappers {

  datatype Option<+T> = None | Some(value: T)

}
