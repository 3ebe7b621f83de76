/** Optional values: a component an entity may or may not carry. */
module Wrappers {

  datatype Option<+T> = None | Some(value: T)
}
