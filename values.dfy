/** Values as the JavaScript code sees them: an optional value (a missing
    property, `null`, or a parse that gave NaN) and the `x || default`
    idiom, which replaces every falsy value. Only strings and numbers flow
    through that idiom in this system, and for them falsy means missing,
    the empty string, or zero. */
module Values {

  datatype Option<+T> = None | Some(value: T)

  /** A string-valued property is truthy when it is present and non-empty. */
  predicate Truthy(s: Option<string>) {
    s.Some? && s.value != ""
  }

  /** `s || fallback` for a string-valued property. */
  function OrElse(s: Option<string>, fallback: string): (r: string)
    ensures Truthy(s) ==> r == s.value
    ensures !Truthy(s) ==> r == fallback
    ensures fallback != "" ==> r != ""
  {
    if Truthy(s) then s.value else fallback
  }

  /** `s || null`: the empty string is stored as NULL, like a missing value. */
  function NullIfFalsy(s: Option<string>): (r: Option<string>)
    ensures r == None || (r.Some? && r.value != "")
    ensures Truthy(s) ==> r == s
    ensures !Truthy(s) ==> r == None
  {
    if Truthy(s) then s else None
  }

  /** `Number(x) || 0` or `parseFloat(x)` followed by the NaN fix-up: a value
      that did not parse (NaN) becomes 0; zero stays zero. */
  function NumberOrZero(n: Option<real>): (r: real)
    ensures n.None? ==> r == 0.0
    ensures n.Some? ==> r == n.value
  {
    if n.Some? then n.value else 0.0
  }

  function Abs(x: real): (r: real)
    ensures r >= 0.0 && (r == x || r == -x)
  {
    if x < 0.0 then -x else x
  }
}
