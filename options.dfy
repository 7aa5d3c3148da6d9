/** The optional value used where the page script looks something up that may be absent. */
module Options {
  datatype Option<T> = None | Some(value: T)
}
