/** Optional values and the JavaScript truthiness rules the source relies on. */
module Wrappers {

  /** An optional value: `undefined` (or an absent JSON field) is `None`. */
  datatype Option<+T> = None | Some(value: T)

  /** JavaScript truthiness of an optional string: present and not "". */
  predicate Present(o: Option<string>) {
    o.Some? && o.value != ""
  }

  /** The JavaScript expression `o || d` on an optional string. */
  function OrElse(o: Option<string>, d: string): string {
    if Present(o) then o.value else d
  }

  /** The JavaScript expression `s || undefined` on a string. */
  function Defined(s: string): Option<string> {
    if s == "" then None else Some(s)
  }
}
