/** A function template that rejects its index list at compile time has no result. */
module Options {
  datatype Option<+T> = None | Some(value: T)
}
