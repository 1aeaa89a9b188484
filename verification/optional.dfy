/** An optional value: `None` stands for the source's `null` (and, where the
    source only tests truthiness, for every other falsy value). */
module Optional {

  datatype Option<+T> = None | Some(value: T)
}
