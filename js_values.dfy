/** JavaScript values as the route handlers see them after `request.json()`:
    a field that is absent (undefined/null) is `None`, and truthiness follows
    JavaScript (the empty string, 0 and false are falsy; every array is truthy). */
module JsValues {

  datatype Option<+T> = None | Some(value: T)

  /** `s` is truthy: present and not the empty string. */
  predicate Truthy(s: Option<string>) {
    s.Some? && s.value != ""
  }

  /** `a || b` on optional strings. */
  function Or(a: Option<string>, b: Option<string>): (r: Option<string>)
    ensures Truthy(a) ==> r == a
    ensures !Truthy(a) ==> r == b
  {
    if Truthy(a) then a else b
  }

  /** `a || dflt` on optional strings with a string default. */
  function OrElse(a: Option<string>, dflt: string): (r: string)
    ensures Truthy(a) ==> r == a.value
    ensures !Truthy(a) ==> r == dflt
  {
    if Truthy(a) then a.value else dflt
  }

  /** `n || dflt` on an optional number: 0 is falsy. */
  function NumberOr(n: Option<int>, dflt: int): (r: int)
    ensures n.Some? && n.value != 0 ==> r == n.value
    ensures n.None? || n.value == 0 ==> r == dflt
  {
    if n.Some? && n.value != 0 then n.value else dflt
  }

  /** `b || false` on an optional boolean. */
  function BoolOrFalse(b: Option<bool>): (r: bool)
    ensures r <==> b == Some(true)
  {
    b.Some? && b.value
  }

  /** `xs || []` on an optional array: arrays, even empty ones, are truthy. */
  function ArrayOrEmpty<T>(xs: Option<seq<T>>): (r: seq<T>)
    ensures xs.Some? ==> r == xs.value
    ensures xs.None? ==> r == []
  {
    if xs.Some? then xs.value else []
  }
}
