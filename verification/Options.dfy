/** The optional value shared by the modules of this project (JavaScript's `null`/`undefined` results). */
module Options {

  datatype Option<+T> = None | Some(value: T)
}
