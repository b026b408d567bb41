/**
 * The JavaScript values the route handlers and the hook see: JSON request fields, environment
 * variables, and the `NextResponse` records they return.
 */
module Js {
  import opened Wrappers

  /** A JSON scalar as `request.json()` yields it; `Undefined` is a missing key. */
  datatype JsValue = Undefined | Null | Bool(b: bool) | Num(n: int) | Str(s: string)

  /** JavaScript truthiness (`if (v)`, `!v`, `v || d`). */
  predicate Truthy(v: JsValue)
  {
    match v
    case Undefined => false
    case Null => false
    case Bool(b) => b
    case Num(n) => n != 0
    case Str(s) => s != ""
  }

  /** A JSON object body: missing keys read as `undefined`. */
  type JsObject = map<string, JsValue>

  function Field(o: JsObject, key: string): JsValue
  {
    if key in o then o[key] else Undefined
  }

  /** What `await request.json()` gives, as the handlers' destructuring reads it: `Malformed`
      (with the runtime's message) when the text is not JSON or is `null`, since destructuring
      `null` throws; otherwise the fields of an object. Any other JSON value (a number, a string,
      a boolean or an array) reads as the empty object: every field of it is `undefined`. */
  datatype RequestBody = Malformed(message: string) | Object(fields: JsObject)

  /** An environment variable (`process.env.X`: a string or `undefined`) is truthy when set and non-empty. */
  predicate IsSet(v: Option<string>)
  {
    v.Some? && v.value != ""
  }

  /** JavaScript `a || b` on strings. */
  function OrElse(a: string, b: string): (r: string)
    ensures a != "" ==> r == a
    ensures a == "" ==> r == b
  {
    if a != "" then a else b
  }

  /** A JSON body returned by the mutation routes. */
  datatype ApiBody =
    | Message(message: string)
    | Error(error: string)
    | ErrorWithDetail(error: string, detail: string)
    | CreatedId(id: string)
    | EmptyBody

  /** `NextResponse.json(body, { status })`; `status` 200 when none is given. */
  datatype Response<B> = Response(status: int, body: B)

  /** The response Next.js sends when a route handler's promise rejects. */
  const UnhandledRejection: Response<ApiBody> := Response(500, EmptyBody)
}
