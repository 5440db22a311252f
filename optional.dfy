/** The "value or nothing" result that every read of the store returns. */
module Optional {

  /** `None` is the store's only failure outcome: the key has no value. */
  datatype Option<+T> = None | Some(value: T)
}
