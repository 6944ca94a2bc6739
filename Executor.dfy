/**
 * The two tools. Each validates the repository name, talks to the hosting
 * API through at most two calls, and folds every outcome (including every
 * exception) into a tool-result envelope whose isError flag marks failure.
 *
 * The hosting API is an oracle: `Host(history, call)` is the reply to `call`
 * when `history` lists the calls made before it. Every tool run returns the
 * calls it made, in order, so "no call is made" and "the deletion is never
 * attempted" are statements about that trace.
 */
module Executor {
  import opened Wrappers
  import opened Text
  import opened Json
  import Catalog

  const ReposUrl := "https://api.github.com/user/repos"
  const UserUrl := "https://api.github.com/user"

  /** The deletion endpoint of repository `name` owned by `owner`. */
  function RepoUrl(owner: Value, name: Value): string {
    "https://api.github.com/repos/" + Show(owner) + "/" + Show(name)
  }

  const StatusOk := 200
  const StatusCreated := 201
  const StatusNoContent := 204

  datatype Call = HttpPost(url: string, payload: Value) | HttpGet(url: string) | HttpDelete(url: string)

  /** A response body: the value response.json() returns, or the text of the error it raises. */
  datatype Body = Decoded(value: Value) | Malformed(detail: string)

  /** A reply, or the text of the exception the HTTP client raised instead. */
  datatype HttpReply = Reply(status: int, body: Body) | Unreachable(detail: string)

  type Host = (seq<Call>, Call) -> HttpReply

  /** A tool-result envelope: one text item and the isError flag. */
  datatype ToolResult = ToolResult(text: string, isError: bool)

  datatype Execution = Execution(result: ToolResult, calls: seq<Call>)

  /** The envelope as a dict: "isError" is present, and true, exactly on failure. */
  function ToolResultJson(r: ToolResult): (j: Value)
    ensures j.JObj? && "content" in j.fields
    ensures ("isError" in j.fields) <==> r.isError
    ensures r.isError ==> j.fields["isError"] == JBool(true)
  {
    var content := JArr([JObj(map["type" := JStr("text"), "text" := JStr(r.text)])]);
    JObj(if r.isError then map["content" := content, "isError" := JBool(true)] else map["content" := content])
  }

  /** How a client reads an envelope back. */
  function ReadToolResult(j: Value): Option<ToolResult> {
    if j.JObj? && "content" in j.fields && j.fields["content"].JArr? && |j.fields["content"].items| == 1 then
      var item := j.fields["content"].items[0];
      if item.JObj? && "type" in item.fields && item.fields["type"] == JStr("text") &&
         "text" in item.fields && item.fields["text"].JStr? then
        Some(ToolResult(item.fields["text"].s, "isError" in j.fields && j.fields["isError"] == JBool(true)))
      else None
    else None
  }

  lemma ToolResultRoundTrip(r: ToolResult)
    ensures ReadToolResult(ToolResultJson(r)) == Some(r)
  {
  }

  const Tick := "\U{2705}"
  const Cross := "\U{274C}"

  const NameRequired := ToolResult("Error: Repository name is required", true)

  function CreateCrash(detail: string): ToolResult {
    ToolResult(Cross + " Error creating repository: " + detail, true)
  }

  function CreateSucceeded(name: Value, htmlUrl: Value, cloneUrl: Value): ToolResult {
    ToolResult(Tick + " Successfully created GitHub repository '" + Show(name) + "'!\n\nRepository URL: "
               + Show(htmlUrl) + "\nClone URL: " + Show(cloneUrl), false)
  }

  function CreateFailed(message: Value, status: int): ToolResult {
    ToolResult(Cross + " Failed to create repository: " + Show(message) + " (Status: " + IntToDecimal(status) + ")", true)
  }

  function DeleteCrash(detail: string): ToolResult {
    ToolResult(Cross + " Error deleting repository: " + detail, true)
  }

  function LookupFailed(status: int): ToolResult {
    ToolResult(Cross + " Failed to get user info: " + IntToDecimal(status), true)
  }

  function DeleteSucceeded(name: Value): ToolResult {
    ToolResult(Tick + " Successfully deleted GitHub repository '" + Show(name) + "'", false)
  }

  function DeleteFailed(message: Value, status: int): ToolResult {
    ToolResult(Cross + " Failed to delete repository: " + Show(message) + " (Status: " + IntToDecimal(status) + ")", true)
  }

  /** The arguments name a repository: they are a dict whose "name" is truthy. */
  predicate HasName(args: Value) {
    args.JObj? && Truthy(Get(args.fields, "name"))
  }

  /** A body the server can read fields from: it decoded, and to a dict. */
  predicate IsDictBody(b: Body) {
    b.Decoded? && b.value.JObj?
  }

  /**
   * The creation payload: the name, `private` (false unless given) and
   * `auto_init` (true unless given), plus `description` exactly when the
   * arguments carry one.
   */
  function CreatePayload(args: map<string, Value>): (p: Value)
    ensures p.JObj?
    ensures p.fields.Keys == {"name", "private", "auto_init"} + (if "description" in args then {"description"} else {})
    ensures p.fields["name"] == Get(args, "name")
    ensures p.fields["private"] == (if "private" in args then args["private"] else JBool(false))
    ensures p.fields["auto_init"] == (if "auto_init" in args then args["auto_init"] else JBool(true))
    ensures "description" in args ==> p.fields["description"] == args["description"]
  {
    var defaults := map[
      "name" := Get(args, "name"),
      "private" := GetOr(args, "private", JBool(false)),
      "auto_init" := GetOr(args, "auto_init", JBool(true))];
    JObj(defaults + (if "description" in args then map["description" := args["description"]] else map[]))
  }

  /** What create makes of the reply to its one POST. */
  function CreateOutcome(name: Value, reply: HttpReply): ToolResult {
    match reply
    case Unreachable(detail) => CreateCrash(detail)
    case Reply(status, body) =>
      match body
      case Malformed(detail) => CreateCrash(detail)
      case Decoded(data) =>
        if !data.JObj? then CreateCrash(NoGetMessage(data))
        else if status == StatusCreated then
          CreateSucceeded(name, GetOr(data.fields, "html_url", JStr("Unknown")), GetOr(data.fields, "clone_url", JStr("Unknown")))
        else CreateFailed(GetOr(data.fields, "message", JStr("Unknown error")), status)
  }

  /** create_github_repository, as a function of the arguments and the host. */
  function Create(args: Value, host: Host, history: seq<Call>): (e: Execution)
    ensures (e.calls == []) <==> !HasName(args)
    ensures !HasName(args) ==> e.result.isError
    ensures args.JObj? && !HasName(args) ==> e.result == NameRequired
    ensures HasName(args) ==> e.calls == [HttpPost(ReposUrl, CreatePayload(args.fields))]
    ensures !e.result.isError <==>
              HasName(args) && host(history, e.calls[0]).Reply? &&
              host(history, e.calls[0]).status == StatusCreated && IsDictBody(host(history, e.calls[0]).body)
  {
    if !args.JObj? then Execution(CreateCrash(NoGetMessage(args)), [])
    else
      var name := Get(args.fields, "name");
      if !Truthy(name) then Execution(NameRequired, [])
      else
        var post := HttpPost(ReposUrl, CreatePayload(args.fields));
        Execution(CreateOutcome(name, host(history, post)), [post])
  }

  /** What delete makes of the reply to its DELETE call. */
  function DeleteOutcome(name: Value, reply: HttpReply): ToolResult {
    match reply
    case Unreachable(detail) => DeleteCrash(detail)
    case Reply(status, body) =>
      if status == StatusNoContent then DeleteSucceeded(name)
      else
        match body
        case Malformed(detail) => DeleteCrash(detail)
        case Decoded(data) =>
          if !data.JObj? then DeleteCrash(NoGetMessage(data))
          else DeleteFailed(GetOr(data.fields, "message", JStr("Unknown error")), status)
  }

  /** The user lookup answered 200 with a dict: only then is a deletion attempted. */
  predicate LookupSucceeded(reply: HttpReply) {
    reply.Reply? && reply.status == StatusOk && IsDictBody(reply.body)
  }

  /** delete_github_repository, as a function of the arguments and the host. */
  function Delete(args: Value, host: Host, history: seq<Call>): (e: Execution)
    ensures (e.calls == []) <==> !HasName(args)
    ensures !HasName(args) ==> e.result.isError
    ensures args.JObj? && !HasName(args) ==> e.result == NameRequired
    ensures HasName(args) ==> 1 <= |e.calls| <= 2 && e.calls[0] == HttpGet(UserUrl)
    ensures |e.calls| == 2 <==> HasName(args) && LookupSucceeded(host(history, HttpGet(UserUrl)))
    ensures |e.calls| == 2 ==>
              e.calls[1] == HttpDelete(RepoUrl(Get(host(history, HttpGet(UserUrl)).body.value.fields, "login"),
                                               Get(args.fields, "name")))
    ensures !e.result.isError <==>
              |e.calls| == 2 && host(history + [e.calls[0]], e.calls[1]).Reply? &&
              host(history + [e.calls[0]], e.calls[1]).status == StatusNoContent
  {
    if !args.JObj? then Execution(DeleteCrash(NoGetMessage(args)), [])
    else
      var name := Get(args.fields, "name");
      if !Truthy(name) then Execution(NameRequired, [])
      else
        var lookup := HttpGet(UserUrl);
        match host(history, lookup)
        case Unreachable(detail) => Execution(DeleteCrash(detail), [lookup])
        case Reply(status, body) =>
          if status != StatusOk then Execution(LookupFailed(status), [lookup])
          else
            match body
            case Malformed(detail) => Execution(DeleteCrash(detail), [lookup])
            case Decoded(user) =>
              if !user.JObj? then Execution(DeleteCrash(NoGetMessage(user)), [lookup])
              else
                var del := HttpDelete(RepoUrl(Get(user.fields, "login"), name));
                Execution(DeleteOutcome(name, host(history + [lookup], del)), [lookup, del])
  }

  /**
   * create_github_repository: builds the payload, adding the description in
   * place when one is given, and makes one POST.
   */
  method CreateRepository(args: Value, host: Host, history: seq<Call>) returns (result: ToolResult, calls: seq<Call>)
    ensures Execution(result, calls) == Create(args, host, history)
  {
    calls := [];
    if !args.JObj? {
      result := CreateCrash(NoGetMessage(args));
      return;
    }
    var repoName := Get(args.fields, "name");
    if !Truthy(repoName) {
      result := NameRequired;
      return;
    }
    var payload := map[
      "name" := repoName,
      "private" := GetOr(args.fields, "private", JBool(false)),
      "auto_init" := GetOr(args.fields, "auto_init", JBool(true))];
    if "description" in args.fields {
      payload := payload["description" := args.fields["description"]];
    }
    var post := HttpPost(ReposUrl, JObj(payload));
    assert history + calls == history;
    var response := host(history + calls, post);
    calls := calls + [post];
    assert post == HttpPost(ReposUrl, CreatePayload(args.fields));
    match response
    case Unreachable(detail) =>
      result := CreateCrash(detail);
    case Reply(status, body) =>
      if body.Malformed? {
        result := CreateCrash(body.detail);
      } else if !body.value.JObj? {
        result := CreateCrash(NoGetMessage(body.value));
      } else if status == StatusCreated {
        var repoData := body.value.fields;
        result := CreateSucceeded(repoName, GetOr(repoData, "html_url", JStr("Unknown")), GetOr(repoData, "clone_url", JStr("Unknown")));
      } else {
        var errorData := body.value.fields;
        result := CreateFailed(GetOr(errorData, "message", JStr("Unknown error")), status);
      }
  }

  /**
   * delete_github_repository: looks up the acting user, returns early when
   * that fails, and only then issues the DELETE for that user's repository.
   */
  method DeleteRepository(args: Value, host: Host, history: seq<Call>) returns (result: ToolResult, calls: seq<Call>)
    ensures Execution(result, calls) == Delete(args, host, history)
  {
    calls := [];
    if !args.JObj? {
      result := DeleteCrash(NoGetMessage(args));
      return;
    }
    var repoName := Get(args.fields, "name");
    if !Truthy(repoName) {
      result := NameRequired;
      return;
    }
    var lookup := HttpGet(UserUrl);
    assert history + calls == history;
    var userResponse := host(history + calls, lookup);
    calls := calls + [lookup];
    if userResponse.Unreachable? {
      result := DeleteCrash(userResponse.detail);
      return;
    }
    if userResponse.status != StatusOk {
      result := LookupFailed(userResponse.status);
      return;
    }
    if userResponse.body.Malformed? {
      result := DeleteCrash(userResponse.body.detail);
      return;
    }
    var userData := userResponse.body.value;
    if !userData.JObj? {
      result := DeleteCrash(NoGetMessage(userData));
      return;
    }
    var username := Get(userData.fields, "login");
    var del := HttpDelete(RepoUrl(username, repoName));
    assert history + calls == history + [lookup];
    var response := host(history + calls, del);
    calls := calls + [del];
    if response.Unreachable? {
      result := DeleteCrash(response.detail);
    } else if response.status == StatusNoContent {
      result := DeleteSucceeded(repoName);
    } else if response.body.Malformed? {
      result := DeleteCrash(response.body.detail);
    } else if !response.body.value.JObj? {
      result := DeleteCrash(NoGetMessage(response.body.value));
    } else {
      var errorData := response.body.value.fields;
      result := DeleteFailed(GetOr(errorData, "message", JStr("Unknown error")), response.status);
    }
  }

  /** A repository that was created is reported with its name, web URL and clone URL ("Unknown" when absent). */
  lemma CreateReportsRepository(args: Value, host: Host, history: seq<Call>)
    requires HasName(args)
    requires var reply := host(history, HttpPost(ReposUrl, CreatePayload(args.fields)));
             reply.Reply? && reply.status == StatusCreated && IsDictBody(reply.body)
    ensures var data := host(history, HttpPost(ReposUrl, CreatePayload(args.fields))).body.value.fields;
            var r := Create(args, host, history).result;
            !r.isError &&
            Contains(r.text, Show(Get(args.fields, "name"))) &&
            Contains(r.text, Show(GetOr(data, "html_url", JStr("Unknown")))) &&
            Contains(r.text, Show(GetOr(data, "clone_url", JStr("Unknown"))))
  {
    var data := host(history, HttpPost(ReposUrl, CreatePayload(args.fields))).body.value.fields;
    var name := Show(Get(args.fields, "name"));
    var html := Show(GetOr(data, "html_url", JStr("Unknown")));
    var clone := Show(GetOr(data, "clone_url", JStr("Unknown")));
    var a := Tick + " Successfully created GitHub repository '";
    var b := "'!\n\nRepository URL: ";
    var c := "\nClone URL: ";
    assert Create(args, host, history).result.text == a + name + b + html + c + clone;
    ContainsSuffix(a, name);
    ContainsAppend(a + name, name, b);
    ContainsAppend(a + name + b, name, html);
    ContainsAppend(a + name + b + html, name, c);
    ContainsAppend(a + name + b + html + c, name, clone);
    ContainsSuffix(a + name + b, html);
    ContainsAppend(a + name + b + html, html, c);
    ContainsAppend(a + name + b + html + c, html, clone);
    ContainsSuffix(a + name + b + html + c, clone);
  }

  /** A rejected creation is an error naming the API's message ("Unknown error" when absent) and the status. */
  lemma CreateReportsRejection(args: Value, host: Host, history: seq<Call>)
    requires HasName(args)
    requires var reply := host(history, HttpPost(ReposUrl, CreatePayload(args.fields)));
             reply.Reply? && reply.status != StatusCreated && IsDictBody(reply.body)
    ensures var reply := host(history, HttpPost(ReposUrl, CreatePayload(args.fields)));
            var r := Create(args, host, history).result;
            r.isError &&
            Contains(r.text, Show(GetOr(reply.body.value.fields, "message", JStr("Unknown error")))) &&
            Contains(r.text, IntToDecimal(reply.status))
  {
    var reply := host(history, HttpPost(ReposUrl, CreatePayload(args.fields)));
    RejectionMentions(Cross + " Failed to create repository: ",
      Show(GetOr(reply.body.value.fields, "message", JStr("Unknown error"))), IntToDecimal(reply.status));
  }

  /** A transport failure or an unreadable body is an error carrying the exception's text. */
  lemma CreateReportsFault(args: Value, host: Host, history: seq<Call>, detail: string)
    requires HasName(args)
    requires var reply := host(history, HttpPost(ReposUrl, CreatePayload(args.fields)));
             reply == Unreachable(detail) || (reply.Reply? && reply.body == Malformed(detail))
    ensures var r := Create(args, host, history).result;
            r.isError && Contains(r.text, detail)
  {
    ContainsSuffix(Cross + " Error creating repository: ", detail);
  }

  /** A transport failure or an unreadable body at the user lookup is an error quoting the exception's text. */
  lemma DeleteReportsLookupFault(args: Value, host: Host, history: seq<Call>, detail: string)
    requires HasName(args)
    requires var reply := host(history, HttpGet(UserUrl));
             reply == Unreachable(detail) ||
             (reply.Reply? && reply.status == StatusOk && reply.body == Malformed(detail))
    ensures var e := Delete(args, host, history);
            e.calls == [HttpGet(UserUrl)] && e.result.isError && Contains(e.result.text, detail)
  {
    ContainsSuffix(Cross + " Error deleting repository: ", detail);
  }

  /** A transport failure or an unreadable error body at the DELETE is an error quoting the exception's text. */
  lemma DeleteReportsFault(args: Value, host: Host, history: seq<Call>, detail: string)
    requires HasName(args) && LookupSucceeded(host(history, HttpGet(UserUrl)))
    requires var owner := Get(host(history, HttpGet(UserUrl)).body.value.fields, "login");
             var reply := host(history + [HttpGet(UserUrl)], HttpDelete(RepoUrl(owner, Get(args.fields, "name"))));
             reply == Unreachable(detail) ||
             (reply.Reply? && reply.status != StatusNoContent && reply.body == Malformed(detail))
    ensures var r := Delete(args, host, history).result;
            r.isError && Contains(r.text, detail)
  {
    ContainsSuffix(Cross + " Error deleting repository: ", detail);
  }

  lemma RejectionMentions(prefix: string, message: string, status: string)
    ensures var text := prefix + message + " (Status: " + status + ")";
            Contains(text, message) && Contains(text, status)
  {
    ContainsSuffix(prefix, message);
    ContainsAppend(prefix + message, message, " (Status: ");
    ContainsAppend(prefix + message + " (Status: ", message, status);
    ContainsAppend(prefix + message + " (Status: " + status, message, ")");
    ContainsSuffix(prefix + message + " (Status: ", status);
    ContainsAppend(prefix + message + " (Status: " + status, status, ")");
  }

  /**
   * The payload falls back to exactly the defaults the catalog advertises for
   * the create tool, and leaves out the description, which has none.
   */
  lemma CreateDefaultsMatchCatalog(args: map<string, Value>)
    ensures "private" !in args ==>
              Some(CreatePayload(args).fields["private"]) == Catalog.DefaultOf(Catalog.CreateTool.params, "private")
    ensures "auto_init" !in args ==>
              Some(CreatePayload(args).fields["auto_init"]) == Catalog.DefaultOf(Catalog.CreateTool.params, "auto_init")
    ensures "description" !in args ==>
              "description" !in CreatePayload(args).fields &&
              Catalog.DefaultOf(Catalog.CreateTool.params, "description") == None
  {
    Catalog.CreateSchemaDefaults();
  }

  /** A failed user lookup ends the deletion: the DELETE is never issued, and the error names the lookup status. */
  lemma DeleteAbortsOnLookupFailure(args: Value, host: Host, history: seq<Call>)
    requires HasName(args)
    requires !LookupSucceeded(host(history, HttpGet(UserUrl)))
    ensures var e := Delete(args, host, history);
            e.calls == [HttpGet(UserUrl)] && e.result.isError &&
            forall k :: 0 <= k < |e.calls| ==> !e.calls[k].HttpDelete?
    ensures var reply := host(history, HttpGet(UserUrl));
            reply.Reply? && reply.status != StatusOk ==>
              Delete(args, host, history).result == LookupFailed(reply.status) &&
              Contains(LookupFailed(reply.status).text, IntToDecimal(reply.status))
  {
    var reply := host(history, HttpGet(UserUrl));
    if reply.Reply? && reply.status != StatusOk {
      ContainsSuffix(Cross + " Failed to get user info: ", IntToDecimal(reply.status));
    }
  }

  /** After a successful lookup the DELETE goes to /repos/<login>/<name>. */
  lemma DeleteTargetsLookedUpOwner(args: Value, host: Host, history: seq<Call>, login: string, name: string)
    requires HasName(args) && Get(args.fields, "name") == JStr(name)
    requires LookupSucceeded(host(history, HttpGet(UserUrl)))
    requires Get(host(history, HttpGet(UserUrl)).body.value.fields, "login") == JStr(login)
    ensures Delete(args, host, history).calls ==
              [HttpGet(UserUrl), HttpDelete("https://api.github.com/repos/" + login + "/" + name)]
  {
  }

  /**
   * Once the DELETE is issued: 204 is success naming the repository; any other
   * status with a dict body is an error naming the API's message and the status.
   */
  lemma DeleteReportsOutcome(args: Value, host: Host, history: seq<Call>)
    requires HasName(args)
    requires LookupSucceeded(host(history, HttpGet(UserUrl)))
    requires var e := Delete(args, host, history);
             var reply := host(history + [e.calls[0]], e.calls[1]);
             reply.Reply? && (reply.status == StatusNoContent || IsDictBody(reply.body))
    ensures var e := Delete(args, host, history);
            var reply := host(history + [e.calls[0]], e.calls[1]);
            if reply.status == StatusNoContent then
              !e.result.isError && Contains(e.result.text, Show(Get(args.fields, "name")))
            else
              e.result.isError &&
              Contains(e.result.text, Show(GetOr(reply.body.value.fields, "message", JStr("Unknown error")))) &&
              Contains(e.result.text, IntToDecimal(reply.status))
  {
    var e := Delete(args, host, history);
    var reply := host(history + [e.calls[0]], e.calls[1]);
    var name := Show(Get(args.fields, "name"));
    if reply.status == StatusNoContent {
      var a := Tick + " Successfully deleted GitHub repository '";
      ContainsSuffix(a, name);
      ContainsAppend(a + name, name, "'");
    } else {
      RejectionMentions(Cross + " Failed to delete repository: ",
        Show(GetOr(reply.body.value.fields, "message", JStr("Unknown error"))), IntToDecimal(reply.status));
    }
  }
}
