/** The inference request both crates send to Ollama's `/api/generate`, and
    how a whole (non-streamed) reply becomes the result or an error. The HTTP
    exchange is opaque: the caller supplies the reply to the request. */
module Ollama {
  import opened Wrappers

  /** The JSON payload `{model, stream, prompt, system?}`. */
  datatype Payload = Payload(model: string, stream: bool, prompt: string, system: Option<string>)

  datatype OllamaRequest = OllamaRequest(url: string, payload: Payload)

  /** `json["response"]` of a decoded body. */
  datatype ResponseField = Absent | NotAString | TextValue(text: string)

  /** One read from the body's byte stream, already decoded to text. */
  datatype ChunkItem = Chunk(text: string) | ChunkFailed(reason: string)

  /** What posting the request produced: a send failure, or a response with
      its status and its body seen three ways: as text (`""` when reading it
      fails, as `unwrap_or_default` gives), as one JSON document (`None` when
      it is not JSON) and as the stream of chunks. */
  datatype Reply =
    | SendFailed(reason: string)
    | Answered(status: nat, text: string, json: Option<ResponseField>, chunks: seq<ChunkItem>)

  type Server = OllamaRequest -> Reply

  datatype OllamaError =
    | SendError(reason: string)
    | ApiError(status: nat, body: string)
    | BadJson
    | MissingResponse
    | ChunkError(reason: string)

  predicate IsSuccess(status: nat) { 200 <= status <= 299 }

  /** The request `call_ollama` posts: `stream` as asked, `system` present
      exactly when a system prompt is given. */
  function BuildRequest(model: string, url: string, prompt: string, system: Option<string>, stream: bool)
    : (r: OllamaRequest)
    ensures r.url == url && r.payload.model == model && r.payload.prompt == prompt
    ensures r.payload.stream == stream
    ensures r.payload.system.Some? <==> system.Some?
    ensures system.Some? ==> r.payload.system.value == system.value
  {
    OllamaRequest(url, Payload(model, stream, prompt, system))
  }

  /** A reply that is not a 2xx response is an error carrying the status and
      the body text. */
  function CheckStatus(reply: Reply): (r: Option<OllamaError>)
    ensures r.None? <==> reply.Answered? && IsSuccess(reply.status)
    ensures reply.Answered? && !IsSuccess(reply.status) ==> r == Some(ApiError(reply.status, reply.text))
  {
    match reply
    case SendFailed(reason) => Some(SendError(reason))
    case Answered(status, text, _, _) =>
      if IsSuccess(status) then None else Some(ApiError(status, text))
  }

  /** The non-streaming result: the `response` string of a 2xx body,
      verbatim; a body that is not JSON, or whose `response` is missing or
      not a string, is an error. */
  function WholeResult(reply: Reply): (r: Result<string, OllamaError>)
    ensures r.Ok? <==> (reply.Answered? && IsSuccess(reply.status)
                        && reply.json.Some? && reply.json.value.TextValue?)
    ensures r.Ok? ==> r.value == reply.json.value.text
    ensures reply.Answered? && !IsSuccess(reply.status) ==> r == Err(ApiError(reply.status, reply.text))
    ensures reply.Answered? && IsSuccess(reply.status) && reply.json.Some? && !reply.json.value.TextValue?
      ==> r == Err(MissingResponse)
  {
    match CheckStatus(reply)
    case Some(e) => Err(e)
    case None =>
      match reply.json
      case None => Err(BadJson)
      case Some(TextValue(s)) => Ok(s)
      case Some(_) => Err(MissingResponse)
  }
}
