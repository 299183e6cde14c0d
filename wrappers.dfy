/** The optional value used for the nullable fields of the scenario model. */
module Wrappers {
  datatype Option<+T> = None | Some(value: T)
}
