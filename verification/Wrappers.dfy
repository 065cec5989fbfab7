/** What several components return or keep when there may be nothing. */
module Wrappers {

  datatype Option<T> = None | Some(value: T)
}
