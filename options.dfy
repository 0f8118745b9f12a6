/** The optional value used wherever the picker reads something that JavaScript
    may leave `null` or `undefined`: a child ref, a stored preference, a list of
    search results, an anchor back-reference. */
module Options {

  datatype Option<+T> = None | Some(value: T)
}
