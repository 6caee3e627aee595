/** Small value types shared by every component. */
module Common {
  datatype Option<+T> = None | Some(value: T)
}
