/** The optional value used for absent keys, absent JSON fields and the
    not-yet-loaded solver handle. */
module Wrappers {
  datatype Option<+T> = None | Some(value: T)
}
