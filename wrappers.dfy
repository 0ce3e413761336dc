/** Optional values: a ticket field that holds JSON null, a lookup that may miss. */
module Wrappers {

  datatype Option<+T> = None | Some(value: T)
}
