/** The optional-value datatype used for the data byte of a frame and for parse results. */
module Wrappers {

  datatype Option<+T> = None | Some(value: T)
}
