/** Small option type for results that may be missing because a store call failed. */
module Options {
  datatype Option<T> = None | Some(value: T)
}
