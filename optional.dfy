/** Optional values and the truthiness test Python applies to an optional string. */
module Optional {

  datatype Option<+T> = None | Some(value: T)

  /** Python's truthiness of a value that is either `None` or a `str`:
      `None` and `""` are falsy, every other string is truthy. */
  predicate Truthy(o: Option<string>) {
    o.Some? && o.value != ""
  }
}
