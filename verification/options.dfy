/** An optional value: `None` stands where the Python code returns `None`
    or raises `ValueError`. */
module Options {

  datatype Option<+T> = None | Some(value: T)
}
