/** The usual optional value, for nil pointers, missing map entries and failed reads. */
module Options {

  datatype Option<+T> = None | Some(value: T)
}
