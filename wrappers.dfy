/** Optional values: a regular-expression group that did not take part in a
    match, or a number that did not parse. */
module Wrappers {

  datatype Option<+T> = None | Some(value: T)
}
