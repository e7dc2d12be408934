/** The optional value used wherever a source value may be absent. */
module Options {

  datatype Option<T> = None | Some(value: T)
}
