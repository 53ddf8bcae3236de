/** The optional value a Python dictionary lookup returns: `None` for a missing
    key or a JSON `null`, `Some(v)` for a present value. */
module Options {

  datatype Option<+T> = None | Some(value: T)
}
