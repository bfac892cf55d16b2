/** The optional value used where a lookup or a parse may come back empty. */
module Wrappers {

  datatype Option<+T> = None | Some(value: T)
}
