/** The optional value used for a pandas cell that may be null (NaN / NaT / None). */
module Wrappers {

  datatype Option<+T> = None | Some(value: T)
}
