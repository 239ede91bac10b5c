/** A value that may be missing, as a JavaScript field that may be `undefined`. */
module Optional {

  datatype Option<T> = None | Some(value: T)

}
