/** The few JavaScript value conventions the task manager relies on: truthiness of
    numbers and strings, and the `a || b` fallback. */
module Js {
  import opened Wrappers

  /** A number is truthy unless it is zero (SQLite stores BOOLEAN columns as 0/1). */
  predicate TruthyInt(n: int) {
    n != 0
  }

  /** A possibly missing string is truthy when present and non-empty. */
  predicate Truthy(s: Option<string>) {
    s.Some? && s.value != ""
  }

  /** `a || null` for a possibly missing string: falsy values become `null`. */
  function OrNull(a: Option<string>): (r: Option<string>)
    ensures Truthy(a) ==> r == a
    ensures !Truthy(a) ==> r.None?
    ensures r.None? || Truthy(r)
  {
    if Truthy(a) then a else None
  }

  /** `a || b || fallback`: the first truthy string, else the fallback. */
  function FirstTruthy(a: Option<string>, b: Option<string>, fallback: string): (r: string)
    ensures Truthy(a) ==> r == a.value
    ensures !Truthy(a) && Truthy(b) ==> r == b.value
    ensures !Truthy(a) && !Truthy(b) ==> r == fallback
  {
    if Truthy(a) then a.value else if Truthy(b) then b.value else fallback
  }
}
