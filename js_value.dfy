/** JavaScript values as the review screens see them, their truthiness,
    and the outcome of a remote call. */
module JsValue {

  datatype Option<+T> = None | Some(value: T)

  /** A value read out of a submission's data object. `Composite` stands
      for an array or object and carries the text `String(v)` gives, which
      is what a template literal shows. Placed directly in a data cell,
      React instead runs an array's items together and refuses a plain
      object; the cells model neither. */
  datatype Value =
    | Undefined
    | Null
    | Bool(b: bool)
    | Int(i: int)
    | Str(s: string)
    | Composite(asString: string)

  /** JavaScript truthiness: false, 0, "", null and undefined are falsy. */
  predicate Truthy(v: Value) {
    match v
    case Undefined => false
    case Null => false
    case Bool(b) => b
    case Int(i) => i != 0
    case Str(s) => s != ""
    case Composite(_) => true
  }

  /** `a || b`. */
  function Or(a: Value, b: Value): Value {
    if Truthy(a) then a else b
  }

  /** What `{cond && <element/>}` leaves on the page. React draws the
      element when `cond` is truthy. Of the falsy values it prints a
      number, so a zero shows as the text "0", and it skips false, null,
      undefined and "". */
  datatype Guarded<+T> = Present(element: T) | StrayZero | Absent

  function Guard<T>(cond: Value, element: T): (g: Guarded<T>)
    ensures g.Present? <==> Truthy(cond)
    ensures g.Present? ==> g.element == element
    ensures g.StrayZero? <==> cond == Int(0)
  {
    if Truthy(cond) then Present(element) else if cond.Int? then StrayZero else Absent
  }

  /** Exactly four values leave nothing on the page. */
  lemma GuardAbsent<T>(cond: Value, element: T)
    ensures Guard(cond, element).Absent? <==> cond in {Undefined, Null, Bool(false), Str("")}
  {
  }

  /** The result of a remote call: the success value, or a failure that may
      carry the server's `error` text (`error.response?.data?.error`). */
  datatype Outcome<+T> = Succeeded(value: T) | Failed(serverError: Option<string>)

  /** `error.response?.data?.error || fallback`. */
  function ErrorText(serverError: Option<string>, fallback: string): (r: string)
    ensures r == fallback || (serverError == Some(r) && r != "")
    ensures serverError.Some? && serverError.value != "" ==> r == serverError.value
    ensures fallback != "" ==> r != ""
  {
    if serverError.Some? && serverError.value != "" then serverError.value else fallback
  }
}
