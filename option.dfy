/** An optional value: the `null` of a nullable Kotlin type. */
module Options {

  datatype Option<+T> = None | Some(value: T)
}
