/** An optional value, shared by the list, the parser and the contexts. */
module Wrappers {

  datatype Option<T> = None | Some(value: T)
}
