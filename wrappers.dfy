/** The nullable fields of the recording service are modelled as `Option` values. */
module Wrappers {

  datatype Option<+T> = None | Some(value: T)
}
