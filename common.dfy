/**
 * Values shared by every route: optional values, the outcome of a call into
 * the billing provider's SDK (or any other code outside the model), the
 * truthiness rules of JavaScript that the routes branch on, and the HTTP
 * response every route handler returns.
 */
module Common {

  datatype Option<+T> = None | Some(value: T) {
    /** The value as a sequence of zero or one elements. */
    function ToSeq(): (s: seq<T>)
      ensures Some? ==> s == [value]
      ensures None? ==> s == []
    {
      if Some? then [value] else []
    }
  }

  /**
   * What a call outside the model did: returned a value, or threw an error
   * carrying `message` (the `err.message` the routes read back).
   */
  datatype Call<+T> = Returned(value: T) | Threw(message: string)

  /**
   * A JSON response: the HTTP status and the body. `NextResponse.json(b)`
   * without an explicit status answers 200.
   */
  datatype Response<+B> = Response(status: nat, body: B)

  /**
   * JavaScript truthiness of an optional string (`undefined`, `null` and `""`
   * are falsy, every other string is truthy).
   */
  predicate Truthy(s: Option<string>)
  {
    s.Some? && s.value != ""
  }

  /** JavaScript truthiness of an optional number: `undefined` and `0` are falsy. */
  predicate TruthyNumber(n: Option<int>)
  {
    n.Some? && n.value != 0
  }

  /** `s || fallback` for an optional string. */
  function OrElse(s: Option<string>, fallback: string): (r: string)
    ensures Truthy(s) ==> r == s.value
    ensures !Truthy(s) ==> r == fallback
  {
    if Truthy(s) then s.value else fallback
  }

  /**
   * A value of `process.env` inside a template literal: an unset variable
   * is rendered as the text "undefined".
   */
  function EnvText(v: Option<string>): (r: string)
    ensures v.Some? ==> r == v.value
    ensures v.None? ==> r == "undefined"
  {
    match v
    case Some(s) => s
    case None => "undefined"
  }
}
