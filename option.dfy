/** The optional value shared by the readers and parsers: a result that may
    be missing (an unparsable line, a file that cannot be opened, a piece
    that is not a `key=value` pair). */
module Options {
  datatype Option<T> = None | Some(value: T)
}
