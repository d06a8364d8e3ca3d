/** An optional value: JavaScript's `T | undefined`. */
module Options {

  datatype Option<T> = None | Some(value: T)

}
