/** The optional value used where the source has `null` or a missing entry. */
module Optional {

  datatype Option<+T> = None | Some(value: T)
}
