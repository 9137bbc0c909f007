/** The optional value returned by the runtime-checked paths (`Option` in the source). */
module Options {
  datatype Option<T> = None | Some(value: T)
}
