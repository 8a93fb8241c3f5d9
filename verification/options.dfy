/** The optional value used for results an external collaborator may not produce. */
module Options {

  datatype Option<+T> = None | Some(value: T)
}
