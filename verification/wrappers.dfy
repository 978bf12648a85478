/** The optional value used wherever the ledger may have nothing to return. */
module Wrappers {

  datatype Option<+T> = None | Some(value: T)
}
