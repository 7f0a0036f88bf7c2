/** The absent-or-present value the page gets back from the backend and the
    environment: `null`/`undefined` become `None`. */
module Options {

  datatype Option<+T> = None | Some(value: T)
}
