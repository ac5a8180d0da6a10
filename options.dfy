/** An optional value: the page's selected date is missing until the page has initialised. */
module Options {
  datatype Option<+T> = None | Some(value: T)
}
