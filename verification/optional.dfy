/** An optional value, used where a parse or a reverse lookup can fail. */
module Optional {

  datatype Option<T> = None | Some(value: T)
}
