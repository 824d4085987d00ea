/** The optional-value datatype the parser returns for a line it may drop. */
module Wrappers {

  datatype Option<+T> = None | Some(value: T)
}
