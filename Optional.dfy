/** An optional value: what the script expresses with `null` or a missing attribute. */
module Optional {
  datatype Option<+T> = None | Some(value: T)
}
