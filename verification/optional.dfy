/** The conventional Some/None datatype, used for JavaScript's `null` slots and for parsers
    that may fail. */
module Optional {

  datatype Option<+T> = None | Some(value: T)

}
