/** The absent-or-present value every extractor returns: "no match" or the captured readings. */
module Wrappers {

  datatype Option<+T> = None | Some(value: T)
}
