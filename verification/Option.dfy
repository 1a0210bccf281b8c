// The optional values shared by the modules of this project.
module Option {
  datatype Option<+T> = None | Some(value: T)
}
