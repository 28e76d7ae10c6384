/** Optional results, standing in for the null pointers the game returns
    when a lookup finds nothing. */
module Wrappers {

  datatype Option<T> = None | Some(value: T)
}
