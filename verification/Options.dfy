/** Results of the fallible operations: `None` stands for the source's error return. */
module Options {
  datatype Option<+T> = None | Some(value: T)

  /** Strict conjunction: undecided as soon as one side is. */
  function Both(a: Option<bool>, b: Option<bool>): Option<bool> {
    if a.Some? && b.Some? then Some(a.value && b.value) else None
  }
}
