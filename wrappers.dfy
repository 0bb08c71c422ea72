/** The optional value used where the source starts from `None` and may
    never find anything. */
module Wrappers {

  datatype Option<+T> = None | Some(value: T)
}
