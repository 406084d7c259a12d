/** The optional value the source spells as a string-or-`None` return. */
module Wrappers {

  datatype Option<+T> = None | Some(value: T)
}
