/** Values that may be missing. */
module Options {

  datatype Option<+T> = None | Some(value: T)

  /** The value if there is one, else the default. */
  function Or<T>(o: Option<T>, default: T): T { if o.Some? then o.value else default }

  /** The first of the two that has a value. */
  function Else<T>(o: Option<T>, p: Option<T>): Option<T> { if o.Some? then o else p }
}
