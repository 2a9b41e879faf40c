/** A value that may be absent: a missing environment variable, a failed parse,
    a store call that raised. */
module Options {

  datatype Option<T> = None | Some(value: T)
}
