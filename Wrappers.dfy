/** The optional value used for nullable columns, absent form fields and failed lookups. */
module Wrappers {

  datatype Option<+T> = None | Some(value: T)
}
