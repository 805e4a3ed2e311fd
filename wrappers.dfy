/**
 * The optional value shared by the registry's lookup and the parser's option
 * recognition.
 */
module Wrappers {

  datatype Option<T> = None | Some(value: T)
}
