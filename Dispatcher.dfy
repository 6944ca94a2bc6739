/**
 * SimpleMCPServer.handle_message and the handlers it routes to. A decoded
 * request maps to exactly one response that echoes the request's id, or to
 * the exception Python would raise (a request or params that is not a dict).
 */
module Dispatcher {
  import opened Wrappers
  import opened Json
  import opened Protocol
  import opened Catalog
  import opened Executor

  const ServerName := "github-repo-creator"
  const ServerVersion := "1.0.0"
  const ProtocolVersion := "2024-11-05"

  /** The outcome of handling one request: a response with the calls made for it, or a raised exception. */
  datatype Dispatch = Handled(response: Response, calls: seq<Call>) | Raised(description: string)

  function InitializeResult(): Value {
    JObj(map[
      "protocolVersion" := JStr(ProtocolVersion),
      "capabilities" := JObj(map["tools" := JObj(map[])]),
      "serverInfo" := JObj(map["name" := JStr(ServerName), "version" := JStr(ServerVersion)])])
  }

  /** handle_initialize: the request's params play no part in the answer. */
  function HandleInitialize(message: map<string, Value>, id: Value): (r: Response)
    ensures r.id == Some(id) && r.outcome.Result?
    ensures r.outcome.value.JObj? && r.outcome.value.fields.Keys == {"protocolVersion", "capabilities", "serverInfo"}
    ensures r.outcome.value.fields["protocolVersion"] == JStr("2024-11-05")
    ensures r.outcome.value.fields["serverInfo"] ==
              JObj(map["name" := JStr("github-repo-creator"), "version" := JStr("1.0.0")])
    ensures r.outcome.value.fields["capabilities"] == JObj(map["tools" := JObj(map[])])
  {
    Response(Some(id), Result(InitializeResult()))
  }

  /** The tools/list result object around a rendered catalog. */
  function ListToolsResult(tools: Value): (v: Value)
    ensures v.JObj? && v.fields.Keys == {"tools"} && v.fields["tools"] == tools
  {
    JObj(map["tools" := tools])
  }

  /** handle_list_tools: the whole catalog under "tools". */
  function HandleListTools(id: Value): (r: Response)
    ensures r.id == Some(id) && r.outcome.Result?
    ensures r.outcome.value.JObj? && r.outcome.value.fields.Keys == {"tools"}
    ensures r.outcome.value.fields["tools"] == CatalogJson()
  {
    Response(Some(id), Result(ListToolsResult(CatalogJson())))
  }

  /** handle_call_tool: route on params["name"]; a name outside the catalog is a -32601 error. */
  function HandleCallTool(message: map<string, Value>, id: Value, host: Host, history: seq<Call>): (d: Dispatch)
    ensures d.Raised? <==> "params" in message && !message["params"].JObj?
    ensures d.Handled? ==> d.response.id == Some(id)
    ensures d.Handled? && d.response.outcome.Error? ==>
              d.calls == [] && d.response.outcome.error.code == MethodNotFound
  {
    var params := GetOr(message, "params", JObj(map[]));
    if !params.JObj? then Raised(NoGetMessage(params))
    else
      var toolName := Get(params.fields, "name");
      var arguments := GetOr(params.fields, "arguments", JObj(map[]));
      if toolName == JStr(CreateToolName) then
        var e := Create(arguments, host, history);
        Handled(Response(Some(id), Result(ToolResultJson(e.result))), e.calls)
      else if toolName == JStr(DeleteToolName) then
        var e := Delete(arguments, host, history);
        Handled(Response(Some(id), Result(ToolResultJson(e.result))), e.calls)
      else
        Handled(Response(Some(id), Error(RpcError(MethodNotFound, "Unknown tool: " + Show(toolName)))), [])
  }

  /** handle_message: route on the request's "method". */
  function HandleMessage(message: Value, host: Host, history: seq<Call>): (d: Dispatch)
    ensures !message.JObj? ==> d == Raised(NoGetMessage(message))
    ensures message.JObj? && d.Handled? ==> d.response.id == Some(Get(message.fields, "id"))
    ensures d.Handled? && d.response.outcome.Error? ==>
              d.calls == [] && d.response.outcome.error.code == MethodNotFound
  {
    if !message.JObj? then Raised(NoGetMessage(message))
    else
      var methodName := Get(message.fields, "method");
      var id := Get(message.fields, "id");
      if methodName == JStr("initialize") then Handled(HandleInitialize(message.fields, id), [])
      else if methodName == JStr("tools/list") then Handled(HandleListTools(id), [])
      else if methodName == JStr("tools/call") then HandleCallTool(message.fields, id, host, history)
      else Handled(Response(Some(id), Error(RpcError(MethodNotFound, "Method not found: " + Show(methodName)))), [])
  }

  /** The three methods the dispatcher answers. */
  predicate IsKnownMethod(methodName: Value) {
    methodName == JStr("initialize") || methodName == JStr("tools/list") || methodName == JStr("tools/call")
  }

  /**
   * A dict request raises only when it is a tools/call whose params is not a
   * dict; otherwise it is answered, with the request's id.
   */
  lemma RaisesOnlyOnBadParams(message: map<string, Value>, host: Host, history: seq<Call>)
    ensures HandleMessage(JObj(message), host, history).Raised? <==>
              Get(message, "method") == JStr("tools/call") && "params" in message && !message["params"].JObj?
  {
    var d := HandleMessage(JObj(message), host, history);
    var methodName, id := Get(message, "method"), Get(message, "id");
    if methodName == JStr("tools/call") {
      assert d == HandleCallTool(message, id, host, history);
    } else {
      assert d.Handled?;
    }
  }

  /** Any method outside the three is answered with -32601 "Method not found: <method>", and nothing else happens. */
  lemma UnknownMethodNotFound(message: map<string, Value>, host: Host, history: seq<Call>)
    requires !IsKnownMethod(Get(message, "method"))
    ensures HandleMessage(JObj(message), host, history) ==
              Handled(Response(Some(Get(message, "id")),
                Error(RpcError(-32601, "Method not found: " + Show(Get(message, "method"))))), [])
  {
  }

  /**
   * The error channel is used for exactly two things: an unknown method and an
   * unknown tool. Every other answered request carries a result.
   */
  lemma ErrorMeansNotFound(message: map<string, Value>, host: Host, history: seq<Call>)
    requires HandleMessage(JObj(message), host, history).Handled?
    ensures var methodName := Get(message, "method");
            var params := GetOr(message, "params", JObj(map[]));
            HandleMessage(JObj(message), host, history).response.outcome.Error? <==>
              !IsKnownMethod(methodName) ||
              (methodName == JStr("tools/call") && !IsKnownTool(Get(params.fields, "name")))
  {
  }

  /** initialize answers the same to any two requests with the same id, whatever their params and the history. */
  lemma InitializeIgnoresParams(m1: map<string, Value>, m2: map<string, Value>, host: Host, h1: seq<Call>, h2: seq<Call>)
    requires Get(m1, "method") == JStr("initialize") && Get(m2, "method") == JStr("initialize")
    requires Get(m1, "id") == Get(m2, "id")
    ensures HandleMessage(JObj(m1), host, h1) == HandleMessage(JObj(m2), host, h2)
    ensures HandleMessage(JObj(m1), host, h1).calls == []
    ensures HandleMessage(JObj(m1), host, h1) == Handled(HandleInitialize(m1, Get(m1, "id")), [])
  {
  }

  /** tools/list lists the two tools, each requiring "name", whatever the request says besides its id. */
  lemma ListToolsReportsCatalog(message: map<string, Value>, host: Host, history: seq<Call>)
    requires Get(message, "method") == JStr("tools/list")
    ensures var d := HandleMessage(JObj(message), host, history);
            d.Handled? && d.calls == [] && d.response.outcome.Result?
    ensures var tools := HandleMessage(JObj(message), host, history).response.outcome.value.fields["tools"];
            tools.JArr? && |tools.items| == 2 &&
            tools.items[0].fields["name"] == JStr("create_github_repository") &&
            tools.items[1].fields["name"] == JStr("delete_github_repository") &&
            forall k :: 0 <= k < 2 ==> tools.items[k].fields["inputSchema"].fields["required"] == JArr([JStr("name")])
    ensures var tools := HandleMessage(JObj(message), host, history).response.outcome.value.fields["tools"];
            CreateSchemaRenders(tools.items[0])
  {
    var d := HandleMessage(JObj(message), host, history);
    assert d == Handled(HandleListTools(Get(message, "id")), []);
    assert d.response.outcome.value.fields["tools"] == CatalogJson();
    CatalogJsonShape(0);
    CatalogJsonShape(1);
    CreateSchemaRendersDefaults();
  }

  /** tools/call with a name outside the catalog is a -32601 error naming it, never a tool result, and makes no call. */
  lemma UnknownToolNotFound(message: map<string, Value>, host: Host, history: seq<Call>)
    requires Get(message, "method") == JStr("tools/call")
    requires GetOr(message, "params", JObj(map[])).JObj?
    requires !IsKnownTool(Get(GetOr(message, "params", JObj(map[])).fields, "name"))
    ensures HandleMessage(JObj(message), host, history) ==
              Handled(Response(Some(Get(message, "id")),
                Error(RpcError(-32601, "Unknown tool: " + Show(Get(GetOr(message, "params", JObj(map[])).fields, "name"))))), [])
  {
  }

  /** tools/call with a known tool answers exactly that tool's envelope (arguments defaulting to {}), with its calls. */
  lemma KnownToolRunsIt(message: map<string, Value>, host: Host, history: seq<Call>)
    requires Get(message, "method") == JStr("tools/call")
    requires GetOr(message, "params", JObj(map[])).JObj?
    requires IsKnownTool(Get(GetOr(message, "params", JObj(map[])).fields, "name"))
    ensures var params := GetOr(message, "params", JObj(map[])).fields;
            var arguments := GetOr(params, "arguments", JObj(map[]));
            var e := if Get(params, "name") == JStr(CreateToolName) then Create(arguments, host, history)
                     else Delete(arguments, host, history);
            HandleMessage(JObj(message), host, history) ==
              Handled(Response(Some(Get(message, "id")), Result(ToolResultJson(e.result))), e.calls)
  {
  }

  /** Every answered request renders with "jsonrpc": "2.0", its own id, and exactly one of result and error. */
  lemma RenderedReplyEnvelope(message: map<string, Value>, host: Host, history: seq<Call>)
    requires HandleMessage(JObj(message), host, history).Handled?
    ensures var j := Render(HandleMessage(JObj(message), host, history).response);
            j.JObj? && j.fields["jsonrpc"] == JStr("2.0") &&
            "id" in j.fields && j.fields["id"] == Get(message, "id") &&
            ("result" in j.fields) != ("error" in j.fields)
  {
  }
}
