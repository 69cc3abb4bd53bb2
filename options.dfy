/** The optional value used for lookups that may miss (`dict.get`, `re.search`). */
module Options {

  datatype Option<T> = None | Some(value: T)
}
