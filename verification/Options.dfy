/** A value that may be missing: a failed library call, a member that is not there. */
module Options {

  datatype Option<T> = None | Some(value: T)
}
