/** The option type shared by the modules, for a nullable column or a query without a row. */
module Options {
  datatype Option<+T> = None | Some(value: T)
}
