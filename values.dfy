/** JavaScript-flavoured values shared by the whole model: absence, null/undefined, thrown errors. */
module Values {

  /** A record that a lookup may not find (JavaScript's `null`). */
  datatype Option<+T> = None | Some(value: T)

  /** A JSON field that may be missing (`undefined`), explicitly `null`, or hold a value. */
  datatype Js<+T> = Undefined | Null | Val(v: T)

  /** What an awaited call produced: a value, or an exception carrying its message. */
  datatype Outcome<+T> = Returned(value: T) | Threw(message: string)

  /** JavaScript `a ?? null`: undefined and null both become null, anything else is kept. */
  function OrNull<T>(a: Js<T>): (r: Js<T>)
    ensures r != Undefined
    ensures a.Val? ==> r == a
    ensures !a.Val? ==> r == Null
  {
    if a.Val? then a else Null
  }

  /** JavaScript `a || b` on strings: the empty string is the only falsy string. */
  function OrElse(a: string, b: string): (r: string)
    ensures a != "" ==> r == a
    ensures a == "" ==> r == b
  {
    if a != "" then a else b
  }
}
