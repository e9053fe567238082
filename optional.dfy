/** A value that may be absent: JavaScript's `undefined` for an own property that is not there. */
module Optional {

  datatype Option<+T> = None | Some(value: T)

}
