/** The optional value used wherever the source has `undefined`, `null` or
    "no row found". */
module Wrappers {

  datatype Option<+T> = None | Some(value: T)

}
