/** The optional value that stands for C#'s nullable references and `T?`. */
module Options {
  datatype Option<T> = None | Some(value: T)
}
