/** The optional value shared by all components: a nullable column, a missing row, a step that raises. */
module Optional {
  datatype Option<+T> = None | Some(value: T)
}
