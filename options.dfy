/** The Some/None wrapper used by both drafts' models. */
module Options {

  datatype Option<T> = None | Some(value: T)
}
