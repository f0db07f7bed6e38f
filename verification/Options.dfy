// Partial results: None stands for the exception the program raises.
module Options {
  datatype Option<+T> = None | Some(value: T)
}
