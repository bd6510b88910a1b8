/** The optional value used for spreadsheet cells that may be empty (pandas NaN / NaT). */
module Wrappers {

  datatype Option<+T> = None | Some(value: T)
}
