/** A value that may be absent: JavaScript's `undefined`/`null`, or `NaN` for numbers. */
module Wrappers {

  datatype Option<+T> = None | Some(value: T)

  /** JavaScript truthiness of an optional string: present and not empty. */
  predicate IsPresent(o: Option<string>) {
    o.Some? && o.value != ""
  }
}
