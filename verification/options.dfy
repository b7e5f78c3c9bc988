/** The "value or nothing" result used for the resolvers' `null` return. */
module Options {

  /** `None` is the resolver's "not applicable" (`null`) answer; `Some` carries a value. */
  datatype Option<+T> = None | Some(value: T)
}
