/** The optional value used for request fields that may be absent and for
    the outcome of `JSON.parse`. */
module Wrappers {
  datatype Option<+T> = None | Some(value: T)
}

/** What the two handlers exchange with the outside world: JSON values, the
    HTTP response they build (the `res` object of the serverless runtime),
    the CORS headers both set first, and the request they send to the
    multimodal backend together with what it may answer. */
module Http {
  import opened Wrappers

  /** A JSON value as `JSON.parse` produces it. Numbers keep their literal
      text: nothing here computes with them. */
  datatype Json =
    | Null
    | Bool(b: bool)
    | Number(literal: string)
    | Str(s: string)
    | Array(items: seq<Json>)
    | Object(fields: map<string, Json>)

  /** A JSON object; the order of its keys is not modelled. */
  type JsonObject = map<string, Json>

  /** `JSON.parse` restricted to texts whose value is an object: `None`
      stands for the `SyntaxError` it throws. */
  type Parser = string -> Option<JsonObject>

  /** A response body: `res.end()` sends none, `res.json(obj)` sends an
      object. */
  datatype Body = NoBody | JsonBody(obj: JsonObject)

  datatype Response = Response(status: int, headers: map<string, string>, body: Body)

  const AllowOrigin := "Access-Control-Allow-Origin"
  const AllowMethods := "Access-Control-Allow-Methods"
  const AllowHeaders := "Access-Control-Allow-Headers"

  /** The three headers each handler sets before looking at the request. */
  const CorsHeaders: map<string, string> :=
    map[AllowOrigin := "*", AllowMethods := "POST, OPTIONS", AllowHeaders := "Content-Type"]

  /** Setting the three headers one after the other adds `CorsHeaders`. */
  lemma CorsHeadersSet(h: map<string, string>)
    ensures h[AllowOrigin := "*"][AllowMethods := "POST, OPTIONS"][AllowHeaders := "Content-Type"]
            == h + CorsHeaders
  {
  }

  /** The body `{ error: message }` of every failed response. */
  function ErrorBody(message: string): Body
  {
    JsonBody(map["error" := Str(message)])
  }

  /** A response carrying the CORS headers. */
  function Reply(status: int, body: Body): Response
  {
    Response(status, CorsHeaders, body)
  }

  /** JavaScript truthiness of an optional string field: present and not
      empty. */
  predicate Truthy(field: Option<string>) {
    field.Some? && field.value != ""
  }

  /** The instruction texts the handlers send. Their wording is data and is
      not modelled; only which one is sent matters. */
  datatype Prompt = RgPrompt | CnhPrompt | ClassePrompt | EnderecoPrompt | ComparePrompt

  /** One part of a `generateContent` request: an instruction or an inline
      image. */
  datatype Part = Instruction(prompt: Prompt) | InlineData(data: string, mimeType: string)

  const Jpeg := "image/jpeg"

  /** What awaiting `generateContent` and then `response.text()` yields:
      the reply text, or the message of the error either of them throws
      (empty when the error has none). */
  datatype Outcome = Answer(text: string) | Failure(message: string)

  /** The multimodal model, a black box from the parts sent to the outcome. */
  type Backend = seq<Part> -> Outcome

  /** The `res` object: handlers write headers and a status code into it
      step by step and finish it once, with `end()` or `json(...)`. */
  class ResponseWriter {
    var statusCode: int
    var headers: map<string, string>
    var body: Body
    var finished: bool

    /** A fresh response: status 200, no headers, nothing sent. */
    constructor ()
      ensures statusCode == 200 && headers == map[] && body == NoBody && !finished
    {
      statusCode, headers, body, finished := 200, map[], NoBody, false;
    }

    /** `res.setHeader(name, value)` */
    method SetHeader(name: string, value: string)
      requires !finished
      modifies this
      ensures headers == old(headers)[name := value]
      ensures statusCode == old(statusCode) && body == old(body) && !finished
    {
      headers := headers[name := value];
    }

    /** `res.status(code)` */
    method Status(code: int)
      requires !finished
      modifies this
      ensures statusCode == code
      ensures headers == old(headers) && body == old(body) && !finished
    {
      statusCode := code;
    }

    /** `res.end()` */
    method End()
      requires !finished
      modifies this
      ensures finished && body == NoBody
      ensures statusCode == old(statusCode) && headers == old(headers)
    {
      body, finished := NoBody, true;
    }

    /** `res.json(obj)` */
    method SendJson(obj: JsonObject)
      requires !finished
      modifies this
      ensures finished && body == JsonBody(obj)
      ensures statusCode == old(statusCode) && headers == old(headers)
    {
      body, finished := JsonBody(obj), true;
    }
  }
}
