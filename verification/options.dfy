/** The optional-value type used for the double-click selection and for the
    track the backend holds. */
module Options {

  datatype Option<+T> = None | Some(value: T)
}
