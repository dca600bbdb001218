/** Stand-ins for JavaScript's optional values and for host calls that may throw. */
module Wrappers {

  /** A value that may be absent (`null` or `undefined` in the plugin). */
  datatype Option<T> = None | Some(value: T)

  /** What a host call did: it returned a value, or it threw. A `catch` in the
      plugin turns `Threw` into a default or into an absent result. */
  datatype Outcome<T> = Returned(value: T) | Threw
}
