/** A Java reference that may be null (a boxed `Float` limit, for one) is an Option. */
module Options {

  datatype Option<+T> = None | Some(value: T)
}
