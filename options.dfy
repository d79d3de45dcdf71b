/** An optional value: `None` stands for Java's `null`. */
module Options {
  datatype Option<+T> = None | Some(value: T)
}
