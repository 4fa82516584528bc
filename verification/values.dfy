/**
 * Value shapes shared by the whole model: an optional value, and the three
 * states a JavaScript string field can be in (missing, null, or a string),
 * together with JavaScript's truthiness test on such a field.
 */
module Values {

  datatype Option<+T> = None | Some(value: T)

  /** A string-typed field as JavaScript sees it: `undefined`, `null` or a string. */
  datatype JsString = Undefined | Null | Str(text: string)

  /** `!!v`: only a non-empty string is truthy. */
  predicate Truthy(v: JsString) {
    v.Str? && v.text != ""
  }

  /** An optional string that is present and non-empty (`if (x)` on `string | undefined`). */
  predicate Present(v: Option<string>) {
    v.Some? && v.value != ""
  }

  /** `v || null`: keeps a non-empty string and turns everything else into null. */
  function OrNull(v: JsString): (r: Option<string>)
    ensures r.Some? <==> Truthy(v)
    ensures r.Some? ==> r.value == v.text && r.value != ""
  {
    if Truthy(v) then Some(v.text) else None
  }

  /** A nullable database column seen from JavaScript: null or a string. */
  function FromColumn(c: Option<string>): (r: JsString)
    ensures r != Undefined
    ensures r == Null <==> c.None?
    ensures c.Some? ==> r == Str(c.value)
  {
    match c
    case None => Null
    case Some(s) => Str(s)
  }
}
