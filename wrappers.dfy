/** The optional value used for fields a stored document may lack and for lookups that find nothing. */
module Wrappers {

  datatype Option<+T> = None | Some(value: T)
}
