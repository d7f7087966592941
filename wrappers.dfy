/** The optional value used for request-body fields that may be absent
    (`undefined` or `null` in the original) and for record fields that the
    store may leave unset. */
module Wrappers {

  datatype Option<+T> = None | Some(value: T)
}
