/** An optional value: a missing dictionary key, an absent column, a None. */
module Optional {
  datatype Option<T> = None | Some(value: T)
}
