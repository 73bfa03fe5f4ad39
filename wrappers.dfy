/** The optional value used for nullable columns, optional query parameters and `.first()` lookups. */
module Wrappers {
  datatype Option<+T> = None | Some(value: T)
}
