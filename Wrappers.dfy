/** The page list returns "no page" as a null reference; the model uses an Option. */
module Wrappers {

  datatype Option<+T> = None | Some(value: T)
}
