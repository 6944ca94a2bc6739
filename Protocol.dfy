/**
 * The JSON-RPC 2.0 response envelope the server writes (section 5 of the
 * JSON-RPC 2.0 specification) and the reserved error codes it uses
 * (section 5.1).
 */
module Protocol {
  import opened Wrappers
  import opened Json

  const JsonRpcVersion := "2.0"

  const ParseError := -32700
  const MethodNotFound := -32601
  const InternalError := -32603

  datatype RpcError = RpcError(code: int, message: string)

  /** A response carries a result or an error, by construction never both. */
  datatype Outcome = Result(value: Value) | Error(error: RpcError)

  /**
   * `id == None` means the "id" member is absent, which only the transport
   * loop's own error responses do; the dispatcher always writes an "id"
   * (null when the request had none).
   */
  datatype Response = Response(id: Option<Value>, outcome: Outcome)

  function ErrorJson(e: RpcError): Value {
    JObj(map["code" := JInt(e.code), "message" := JStr(e.message)])
  }

  /** The response as the dict handed to json.dumps. */
  function Render(r: Response): (j: Value)
    ensures j.JObj?
    ensures "jsonrpc" in j.fields && j.fields["jsonrpc"] == JStr(JsonRpcVersion)
    ensures ("result" in j.fields) != ("error" in j.fields)
    ensures ("id" in j.fields) <==> r.id.Some?
    ensures r.id.Some? ==> j.fields["id"] == r.id.value
  {
    var base := map["jsonrpc" := JStr(JsonRpcVersion)];
    var head := if r.id.Some? then base["id" := r.id.value] else base;
    match r.outcome
    case Result(v) => JObj(head["result" := v])
    case Error(e) => JObj(head["error" := ErrorJson(e)])
  }

  function ReadError(j: Value): Option<RpcError> {
    if j.JObj? && "code" in j.fields && j.fields["code"].JInt?
       && "message" in j.fields && j.fields["message"].JStr?
    then Some(RpcError(j.fields["code"].i, j.fields["message"].s))
    else None
  }

  /** How a client reads a response object back: None for anything that is not a well-formed response. */
  function ReadResponse(j: Value): Option<Response> {
    if !j.JObj? || "jsonrpc" !in j.fields || j.fields["jsonrpc"] != JStr(JsonRpcVersion) then None
    else
      var f := j.fields;
      var id := if "id" in f then Some(f["id"]) else None;
      if "result" in f && "error" !in f then Some(Response(id, Result(f["result"])))
      else if "error" in f && "result" !in f then
        match ReadError(f["error"])
        case Some(e) => Some(Response(id, Error(e)))
        case None => None
      else None
  }

  /** A rendered response reads back as itself: nothing of the response is lost or confused. */
  lemma RenderRoundTrip(r: Response)
    ensures ReadResponse(Render(r)) == Some(r)
  {
  }

  /** Two responses that render alike are the same response. */
  lemma RenderInjective(r1: Response, r2: Response)
    requires Render(r1) == Render(r2)
    ensures r1 == r2
  {
    RenderRoundTrip(r1);
    RenderRoundTrip(r2);
  }
}
