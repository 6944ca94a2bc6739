# GitHub repository manager MCP server, modelled in Dafny

The server reads JSON-RPC 2.0 style requests, one per line, and writes one
response per line. It answers three methods: `initialize`, `tools/list` and
`tools/call`. It offers two tools, `create_github_repository` and
`delete_github_repository`. Each tool talks to the GitHub REST API and
reports its outcome as a tool-result envelope: one text item, plus an
`isError: true` flag on failure.

The model has one Dafny module per component:

- `Text`: decimal rendering of integers, as `str()` writes them, and
  substring containment.
- `Json`: decoded JSON values and the Python operations the server applies
  to them: `dict.get`, truthiness, `str()`, and the `AttributeError` text of
  `.get` on a non-dict.
- `Protocol`: the response envelope and how it is rendered. A response holds
  a result or an error by construction, never both.
- `Catalog`: the two constant tool descriptors.
- `Executor`: the two tools. Each is written twice:
  - a specification function (`Create`, `Delete`), which the dispatcher uses;
  - a method (`CreateRepository`, `DeleteRepository`) written the way the
    source runs it: the payload updated in place, calls issued one after the
    other, early returns.

  The hosting API is an oracle `Host(history, call)`. Its reply may depend
  on every call made before. Each run returns the calls it made, so "no call
  is made" and "the DELETE is never issued" are statements about that trace.
- `Dispatcher`: `handle_message` and its handlers, as functions. A request
  that Python would crash on is a `Raised` outcome: a request that is not a
  dict, or `tools/call` params that are not a dict.
- `Transport`: the `main` loop.
  - `Loop` and `Run` specify it as a function over the sequence of
    `readline()` results.
  - `Serve` is the loop, a method with invariants.
  - `Answer` is one iteration's try/except.

Behaviour of the program worth knowing when reading the model:

- A request without an `id` is still answered, with `"id": null`. Section 4.1
  of the JSON-RPC 2.0 specification would treat it as a notification and not
  answer it.
- The missing-name text is `Error: Repository name is required`, with the
  `Error: ` prefix.
- Failure texts carry a prefix such as `❌ Failed to create repository: `
  before `<message> (Status: <code>)`.
- The delete tool does not read the body of a 204 reply. The create tool
  reads the body on both of its paths, so an unreadable body there is
  reported as an exception.
- `tools/call` arguments that are not a dict raise inside the tool's `try`.
  This becomes an `isError` envelope, not a protocol error.
- The request's `jsonrpc` member is never checked.

## Model

| member | source | states |
|---|---|---|
| `Text.NatToDecimal` | simple_mcp_server.py:210 | a status code is written as a non-empty string of digits with no leading zero |
| `Text.NatToDecimalRoundTrip` | simple_mcp_server.py:210 | reading back the digits written for a number gives that number |
| `Text.IntToDecimalRoundTrip` | simple_mcp_server.py:257 | the text written for any integer reads back as that integer |
| `Text.IntToDecimalInjective` | simple_mcp_server.py:287 | different status codes are reported as different texts |
| `Protocol.Render` | simple_mcp_server.py:47-54 | a rendered response has `"jsonrpc": "2.0"`; it has exactly one of `result` and `error`; it has an `id` exactly when the response carries one, and that id is the one given |
| `Protocol.RenderRoundTrip` | simple_mcp_server.py:134-153 | a client reading a rendered response back gets the same id, result or error code and message |
| `Protocol.RenderInjective` | simple_mcp_server.py:326 | two different responses never render to the same JSON object |
| `Catalog.Tools` | simple_mcp_server.py:79-122 | the catalog holds exactly two tools, create then delete, and each requires exactly `["name"]` |
| `Catalog.PropertiesJson` | simple_mcp_server.py:85-104 | a schema's `properties` object has a key for every declared parameter, and no other key |
| `Catalog.ParamJson` | simple_mcp_server.py:86-103 | a rendered property carries its type and description, and a `default` exactly when the schema declares one, with that value |
| `Catalog.ParamJsonKeys` | simple_mcp_server.py:86-103 | a rendered property has only `type`, `description` and, when declared, `default` |
| `Catalog.PropertiesLastWins` | simple_mcp_server.py:85-104 | the entry under a parameter's name is that parameter's rendering, unless a later parameter reuses the name |
| `Catalog.PropertiesAllLastWin` | simple_mcp_server.py:85-104 | every parameter whose name no later parameter reuses is rendered under its name |
| `Catalog.CreateNamesDistinct` | simple_mcp_server.py:85-104 | no two properties of the create schema share a name, so each one's entry survives |
| `Catalog.ToolJson` | simple_mcp_server.py:80-106 | a rendered descriptor has the tool's name and description, an object schema whose `required` lists the tool's required names in order, and one property per parameter, rendered with its default |
| `Catalog.ToolJsonKeys` | simple_mcp_server.py:80-106 | a rendered descriptor has exactly `name`, `description` and `inputSchema`, and its schema exactly `type`, `properties` and `required` |
| `Catalog.CatalogJson` | simple_mcp_server.py:79-122 | the `tools` array holds one rendered descriptor per catalog tool, in catalog order |
| `Catalog.DescribedProperty` | simple_mcp_server.py:85-104 | any rendered descriptor of a tool holds each uniquely named parameter's type, description and default |
| `Catalog.DescribedCreateDefaults` | simple_mcp_server.py:85-104 | any rendered create descriptor advertises `private` defaulting to false and `auto_init` to true, and no default for `name` or `description` |
| `Catalog.CreateSchemaRendersDefaults` | simple_mcp_server.py:79-106 | the first descriptor tools/list renders advertises `private` false and `auto_init` true as defaults, and none for `name` and `description` |
| `Catalog.CreateSchemaDefaults` | simple_mcp_server.py:90-103 | the create schema defaults `private` to false and `auto_init` to true, and gives `description` and `name` no default |
| `Catalog.CatalogJsonShape` | simple_mcp_server.py:79-122 | each rendered descriptor carries its tool's name, `required: ["name"]`, and a `name` property |
| `Executor.ToolResultJson` | simple_mcp_server.py:161-169 | an envelope has `content`, and has `isError` (true) exactly when the result is a failure |
| `Executor.ToolResultRoundTrip` | simple_mcp_server.py:161-169 | a client that reads back an envelope, checking that its one item is of type `text`, gets the same text and failure flag |
| `Executor.CreatePayload` | simple_mcp_server.py:177-184 | the payload has keys name, private and auto_init, plus description exactly when the arguments have one; private defaults to false and auto_init to true; given values pass through unchanged |
| `Executor.Create` | simple_mcp_server.py:156-225 | no call is made exactly when the arguments lack a truthy name, and then the result is an error (the name-required text for a dict); with a name, exactly one POST of the payload goes to `/user/repos`; the result is success exactly when the reply is 201 with a dict body |
| `Executor.Delete` | simple_mcp_server.py:227-302 | no call is made exactly when the name is missing, and then the result is an error; otherwise the first call is `GET /user`; a DELETE follows exactly when the lookup answered 200 with a dict, and it goes to `/repos/<str(login)>/<str(name)>`, `None` when the login is absent; the result is success exactly when that DELETE answered 204 |
| `Executor.CreateRepository` | simple_mcp_server.py:156-225 | the in-place payload construction and the single POST produce exactly the result and call trace that `Create` specifies |
| `Executor.DeleteRepository` | simple_mcp_server.py:227-302 | the two sequential calls with early returns produce exactly the result and call trace that `Delete` specifies |
| `Executor.CreateReportsRepository` | simple_mcp_server.py:190-201 | after a 201 with a JSON object body the result is not an error, and its text contains the repository name, `html_url` and `clone_url` (each "Unknown" when absent) |
| `Executor.CreateReportsRejection` | simple_mcp_server.py:202-214 | any other status with a dict body is an error whose text contains the API's `message` ("Unknown error" when absent) and the status code |
| `Executor.CreateReportsFault` | simple_mcp_server.py:216-225 | a transport failure or an undecodable body is an error whose text contains the exception's text |
| `Executor.DeleteReportsLookupFault` | simple_mcp_server.py:250-264 | a transport failure, or an unreadable body after a 200, at the user lookup ends the run after that one call with an error containing the exception's text |
| `Executor.DeleteReportsFault` | simple_mcp_server.py:266-302 | a transport failure at the DELETE, or an unreadable body on a status other than 204, is an error containing the exception's text |
| `Executor.CreateDefaultsMatchCatalog` | simple_mcp_server.py:177-181 | the payload falls back to exactly the defaults the catalog advertises for `private` and `auto_init`, and omits `description`, which has no default |
| `Executor.DeleteAbortsOnLookupFailure` | simple_mcp_server.py:251-261 | when the user lookup fails, the only call made is the lookup and no DELETE is issued; a non-200 status yields "Failed to get user info: <code>" |
| `Executor.DeleteTargetsLookedUpOwner` | simple_mcp_server.py:263-268 | after a successful lookup the DELETE goes to `https://api.github.com/repos/<login>/<name>` |
| `Executor.DeleteReportsOutcome` | simple_mcp_server.py:270-291 | a 204 to the DELETE is success naming the repository; any other status with a dict body is an error containing the API's message and the status |
| `Dispatcher.HandleInitialize` | simple_mcp_server.py:56-71 | the answer echoes the id and is always protocol version 2024-11-05, capabilities `{tools: {}}`, server github-repo-creator 1.0.0 |
| `Dispatcher.HandleListTools` | simple_mcp_server.py:73-124 | the answer echoes the id, and its result's only member is `tools`, which holds the rendered catalog |
| `Dispatcher.ListToolsResult` | simple_mcp_server.py:78-122 | the tools/list result has exactly one member, `tools`, holding the rendered catalog |
| `Dispatcher.HandleCallTool` | simple_mcp_server.py:126-154 | it raises exactly when params is given and is not a dict; otherwise the answer echoes the id, and any error it carries is -32601 with no call made |
| `Dispatcher.HandleMessage` | simple_mcp_server.py:35-54 | a non-dict request raises; an answered request echoes its id; any error it carries is -32601, with no call made |
| `Dispatcher.RaisesOnlyOnBadParams` | simple_mcp_server.py:128-130 | a dict request raises exactly when it is `tools/call` with params present and not a dict |
| `Dispatcher.UnknownMethodNotFound` | simple_mcp_server.py:46-54 | a method other than the three gets -32601 "Method not found: <method>" with the request's id, and no call is made |
| `Dispatcher.ErrorMeansNotFound` | simple_mcp_server.py:40-54 | an answered request carries an error exactly when its method is unknown, or it is `tools/call` naming an unknown tool |
| `Dispatcher.InitializeIgnoresParams` | simple_mcp_server.py:37-71 | an initialize request is answered with exactly `handle_initialize`'s fixed result (protocol version, capabilities, serverInfo) and its own id, whatever its params and the earlier calls; two such requests with the same id get identical answers, and no call is made |
| `Dispatcher.ListToolsReportsCatalog` | simple_mcp_server.py:73-124 | tools/list answers with exactly two descriptors, create then delete, each with `required: ["name"]`; the create schema advertises `private` defaulting to false and `auto_init` to true, and no default for `name` and `description`; no call is made |
| `Dispatcher.UnknownToolNotFound` | simple_mcp_server.py:146-154 | tools/call naming an unknown tool gets -32601 "Unknown tool: <name>", never a tool-result envelope, and makes no call |
| `Dispatcher.KnownToolRunsIt` | simple_mcp_server.py:128-145 | tools/call naming a known tool answers exactly that tool's envelope, with `arguments` defaulting to `{}`, and makes exactly that tool's calls |
| `Dispatcher.RenderedReplyEnvelope` | simple_mcp_server.py:38-54 | every answered request renders with `"jsonrpc": "2.0"`, the request's id and exactly one of result and error |
| `Transport.Respond` | simple_mcp_server.py:319-343 | a request the dispatcher handles is answered with exactly the dispatcher's response and calls; -32700 is written exactly for an undecodable line and -32603 exactly when dispatch raises; these two are the responses without an id, and they make no call; any id given is the request's own |
| `Transport.Answer` | simple_mcp_server.py:319-343 | one iteration's try/except computes exactly the response and calls `Respond` specifies |
| `Transport.Loop` | simple_mcp_server.py:312-343 | the loop writes at most one line per read, and every line it writes is a JSON-RPC 2.0 object with exactly one of result and error |
| `Transport.Run` | simple_mcp_server.py:312-343 | the server writes exactly one line per line read before end of stream, each an object with `"jsonrpc": "2.0"` and exactly one of result and error |
| `Transport.Serve` | simple_mcp_server.py:312-343 | the loop writes exactly what `Run` specifies, one response per line read before end of stream |
| `Transport.LoopAppend` | simple_mcp_server.py:312-326 | running two stretches of lines one after the other is the same as running them concatenated; each iteration sees the calls made before it |
| `Transport.LoopSnoc` | simple_mcp_server.py:312-326 | reading one more line appends exactly its answer and its calls |
| `Transport.LoopExtends` | simple_mcp_server.py:319-326 | after the loop has answered the first i lines, answering line i appends exactly its rendered response and its calls |
| `Transport.RunStopsAt` | simple_mcp_server.py:313-317 | once the loop meets end of stream, or runs out of reads, everything the server writes has been written |
| `Transport.LoopStopsAtEof` | simple_mcp_server.py:315-317 | nothing after the first empty read (end of stream) is read or answered |
| `Transport.LoopLength` | simple_mcp_server.py:312-326 | the loop writes exactly one response per line before end of stream |
| `Transport.LoopAt` | simple_mcp_server.py:312-326 | the k-th output answers the k-th line, given the calls the earlier lines made |
| `Transport.RunAt` | simple_mcp_server.py:320-326 | the server's k-th output is the rendered answer to its k-th line |
| `Transport.RunAnswersRequest` | simple_mcp_server.py:322-326 | a line the dispatcher handles is written as the rendered response the dispatcher gave it, at its own position |
| `Transport.RunParseError` | simple_mcp_server.py:328-335 | an undecodable line is answered with -32700 and no id, and the lines after it are still answered |
| `Transport.RunInternalError` | simple_mcp_server.py:336-343 | a request whose dispatch raises is answered with -32603 "Internal error: ..." and no id |
| `Transport.RunEchoesId` | simple_mcp_server.py:323-326 | an answered dict request gets its own id back, at its own position in the output |

## Left out

- HTTP transport: the `httpx` client, the `Authorization` and `Accept` headers and the token. A call records only its method, URL and payload; replies come from the `Host` oracle.
- Loading the environment and `.env` file, and exiting at startup when the token is missing. This is start-up configuration.
- Logging and the start-up banners on stderr.
- asyncio and `run_in_executor`. Processing is strictly sequential, so there is no concurrency to model.
- Reading stdin and writing and flushing stdout. The loop runs over a finite sequence of `readline()` results: end of stream is `Eof`, and running out of the sequence also counts as end of stream.
- JSON text: `line.strip()`, `json.loads` and `json.dumps` are abstracted. A line arrives already decoded, or with the decoder's error text. A blank line is a line that does not decode.
- JSON object member order, and JSON floating-point numbers. Objects are maps and numbers are integers.
- Json.Show: `str()` of a list or a dict is a fixed placeholder, not Python's repr. `None`, booleans, integers and strings are written exactly.
- Exception texts: the model reproduces Python's text for `.get` on a non-dict. The texts of transport errors and of JSON decoding errors are inputs of the model.
- Decoding failures other than `JSONDecodeError`, such as a `RecursionError` on deeply nested input, which the source would answer with -32603. Every undecodable line of the model is answered with -32700.
- Exceptions the source cannot raise on decoded JSON input, such as memory errors or failures while writing output.
