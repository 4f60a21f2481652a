/** The optional value used for lookups that can miss and for parses that can
    yield NaN or null. */
module Options {

  datatype Option<+T> = None | Some(value: T)

}
