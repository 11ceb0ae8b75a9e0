/** The values the worker handles: requests, responses and what the network
    hands back for a fetch. Responses are immutable values, so "clone before
    caching" is simply using the same value twice. */
module Http {

  datatype Option<T> = None | Some(value: T)

  /** `Response.type` of the Fetch standard; `Default` is what a response
      built with `new Response(...)` reports. */
  datatype ResponseType = Basic | Cors | Default | Error | Opaque | OpaqueRedirect

  /** A response body: raw content, or a JSON object given by its ordered
      (name, string value) fields, which is what `JSON.stringify` serialises. */
  datatype Body = Content(text: string) | JsonObject(fields: seq<(string, string)>)

  datatype Response = Response(
    status: int,
    statusText: string,
    responseType: ResponseType,
    headers: seq<(string, string)>,
    body: Body)

  /** A request as the router sees it. Cache entries are keyed by the URL. */
  datatype Request = Request(verb: string, url: string)

  /** What a call to `fetch` produces: a response (whatever its status), or a
      rejection because the network could not be reached. */
  datatype NetworkOutcome = Fetched(response: Response) | NetworkFailure

  /** The values `event.data` of a message can take, as far as the message
      handler can tell them apart. */
  datatype JsValue =
    | Undefined
    | Null
    | Bool(b: bool)
    | Num(n: int)
    | Str(s: string)
    | Object(properties: map<string, JsValue>)
}
