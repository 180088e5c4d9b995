/** The optional value used wherever the terminal either produces something or refuses. */
module Options {

  datatype Option<+T> = None | Some(value: T)

}
