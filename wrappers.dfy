/** Option values, used for every lookup or parse that can come back empty-handed. */
module Wrappers {

  datatype Option<+T> = None | Some(value: T)
}
