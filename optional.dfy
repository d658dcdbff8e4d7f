/** An optional value, used where the driver hands back "nothing" (a NULL buffer, no check failed). */
module Optional {
  datatype Option<+T> = None | Some(value: T)
}
