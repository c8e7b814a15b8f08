/** An optional value, for the Swift optionals of the view controller. */
module Optional {
  datatype Option<T> = None | Some(value: T)
}
