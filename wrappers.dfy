/** Optional values: TypeScript's `T | undefined`, and the `||` idioms over them. */
module Wrappers {

  datatype Option<+T> = None | Some(value: T) {

    /** `o ?? default`. */
    function GetOr(default: T): T {
      match this
      case Some(v) => v
      case None => default
    }
  }

  /** JavaScript's `s || d` for an optional string: `None` and `""` fall back. */
  function OrDefault(s: Option<string>, d: string): (r: string)
    ensures s.Some? && s.value != "" ==> r == s.value
    ensures s.None? || s.value == "" ==> r == d
  {
    if s.Some? && s.value != "" then s.value else d
  }

  /** `s || undefined`: the empty string is falsy, so it becomes absent. */
  function NonEmptyOrAbsent(s: Option<string>): (r: Option<string>)
    ensures r.Some? <==> s.Some? && s.value != ""
    ensures r.Some? ==> r == s
  {
    if s.Some? && s.value != "" then s else None
  }
}
