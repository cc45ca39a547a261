/** Optional values: an absent handshake field, an unknown column name. */
module Wrappers {

  datatype Option<+T> = None | Some(value: T)
}
