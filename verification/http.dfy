/**
 * What a page sees of one `fetch` call. The network, the backend URL and the
 * credentials mode are outside the model: a call's outcome is an input.
 */
module Http {
  import opened Wrappers
  import opened Js

  /**
   * The settled outcome of a `fetch`.
   *  - `Responded`: the promise resolved. `text` is the body as `res.text()` gives
   *    it; `parsed` is what `JSON.parse` makes of that text (`res.json()` gives the
   *    same), either a value or the message of the SyntaxError it throws;
   *    `jsonContentType` says whether the content-type header names
   *    application/json.
   *  - `Rejected`: the promise rejected (network failure); `message` is the
   *    thrown error's `message` property, `None` when it has none.
   */
  datatype Reply =
    | Responded(ok: bool, statusText: string, text: string, parsed: Result<Json, string>, jsonContentType: bool)
    | Rejected(message: Option<string>)

  /**
   * The body decoding used by the transaction-detail and password-reset pages:
   * `null` for an empty body, the parsed JSON when the text parses, and the raw
   * text otherwise. It never throws.
   */
  function TextBody(text: string, parsed: Result<Json, string>): (data: Json)
    ensures text == "" ==> data == JNull
    ensures text != "" && parsed.Ok? ==> data == parsed.value
    ensures text != "" && parsed.Err? ==> data == JStr(text)
  {
    if text == "" then JNull
    else match parsed
      case Ok(v) => v
      case Err(_) => JStr(text)
  }

  /** `err?.message ?? fallback` for a caught error whose message is a string when present. */
  function MessageOr(message: Option<string>, fallback: string): (m: string)
    ensures message.Some? ==> m == message.value
    ensures message.None? ==> m == fallback
  {
    match message
    case Some(text) => text
    case None => fallback
  }

  /** `err.message || fallback`: unlike `??`, an empty message also falls back. */
  function MessageElse(message: Option<string>, fallback: string): (m: string)
    ensures message.Some? && message.value != "" ==> m == message.value
    ensures message.None? || message.value == "" ==> m == fallback
  {
    match message
    case Some(text) => if text != "" then text else fallback
    case None => fallback
  }
}
