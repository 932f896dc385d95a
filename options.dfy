/** Optional values: Ruby's `nil` or a present value. */
module Options {
  datatype Option<T> = None | Some(value: T)
}
