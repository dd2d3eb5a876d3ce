/**
 * The requests the edge functions receive and the responses they return.
 * Headers (CORS, content type) are not modelled; a response is a status with
 * either a plain text or the fields of a JSON object.
 */
module Http {
  import opened Wrappers
  import opened Json

  /** A request whose JSON body is `None` when reading it as JSON fails. */
  datatype Request<B> = Request(verb: string, body: Option<B>)

  datatype Response =
    | TextReply(status: int, text: string)
    | JsonReply(status: int, fields: map<string, Json>)

  /** What Deno's server answers when the handler throws. */
  const Crashed: Response := TextReply(500, "Internal Server Error")

  /** The CORS pre-flight answer. */
  const PreflightOk: Response := TextReply(200, "ok")

  function Status(r: Response): int {
    match r
    case TextReply(s, _) => s
    case JsonReply(s, _) => s
  }

  /** `{ success: b }`. */
  function Success(status: int, b: bool): Response {
    JsonReply(status, map["success" := JBool(b)])
  }

  /** `{ error: message }`. */
  function Error(status: int, message: string): Response {
    JsonReply(status, map["error" := JStr(message)])
  }

  /** `const { key } = await req.json()`: a body that is not JSON, or is `null`, throws;
      any other value yields the field, missing unless the body is an object holding it. */
  function BodyField(body: Option<Json>, key: string): (r: Attempt<Option<Json>>)
    ensures r.Threw? <==> body.None? || body.value.JNull?
    ensures r.Returned? ==> r.value == Get(body, key)
  {
    if body.None? || body.value.JNull? then Threw else Returned(Get(body, key))
  }

  /** What `res.json()` yields on the client: the object of a JSON reply; a text reply
      ("ok", "Internal Server Error") is not JSON and makes it throw (`None`). */
  function ReplyJson(r: Response): (v: Option<Json>)
    ensures v.Some? <==> r.JsonReply?
    ensures r.JsonReply? ==> v == Some(JObj(r.fields))
  {
    match r
    case TextReply(_, _) => None
    case JsonReply(_, fields) => Some(JObj(fields))
  }

  /** `res.ok`: a status in 200..299. */
  predicate Ok(r: Response) {
    200 <= Status(r) <= 299
  }
}
