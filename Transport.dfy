/**
 * The server's main loop: read one line at a time, decode it, dispatch it,
 * write one response, until a read comes back empty (end of stream). A line
 * that does not decode is answered with -32700 and anything the dispatcher
 * raises with -32603; neither stops the loop. The text encoding and decoding
 * of JSON is abstracted: each line arrives already decoded, or with the
 * decoder's error text.
 */
module Transport {
  import opened Wrappers
  import opened Json
  import opened Protocol
  import opened Executor
  import opened Dispatcher

  /** What json.loads made of one line. */
  datatype Decoded = Parsed(message: Value) | Undecodable(detail: string)

  /** One readline(): end of stream (the empty string), or a line. */
  datatype Read = Eof | Line(decoded: Decoded)

  function ParseErrorResponse(detail: string): Response {
    Response(None, Error(RpcError(ParseError, "Parse error: " + detail)))
  }

  function InternalErrorResponse(detail: string): Response {
    Response(None, Error(RpcError(InternalError, "Internal error: " + detail)))
  }

  datatype Step = Step(response: Response, calls: seq<Call>)

  /** The response to one line, and the API calls made for it. */
  function Respond(line: Decoded, host: Host, history: seq<Call>): (s: Step)
    ensures (s.response.outcome.Error? && s.response.outcome.error.code == ParseError) <==> line.Undecodable?
    ensures (s.response.outcome.Error? && s.response.outcome.error.code == InternalError) <==>
              line.Parsed? && HandleMessage(line.message, host, history).Raised?
    ensures s.response.id.None? <==> line.Undecodable? || HandleMessage(line.message, host, history).Raised?
    ensures line.Parsed? && line.message.JObj? && s.response.id.Some? ==>
              s.response.id.value == Get(line.message.fields, "id")
    ensures s.response.id.None? ==> s.calls == []
    ensures line.Parsed? && HandleMessage(line.message, host, history).Handled? ==>
              s == Step(HandleMessage(line.message, host, history).response, HandleMessage(line.message, host, history).calls)
  {
    match line
    case Undecodable(detail) => Step(ParseErrorResponse(detail), [])
    case Parsed(message) =>
      match HandleMessage(message, host, history)
      case Raised(description) => Step(InternalErrorResponse(description), [])
      case Handled(response, calls) => Step(response, calls)
  }

  /** Everything the loop writes, and every API call it makes, in order. */
  datatype Session = Session(output: seq<Value>, calls: seq<Call>)

  /** What the loop does with one line, given the calls already made. */
  type Handler = (Decoded, seq<Call>) -> Step

  function Handle(host: Host): Handler {
    (line: Decoded, history: seq<Call>) => Respond(line, host, history)
  }

  /** A written line: a JSON-RPC 2.0 object carrying exactly one of result and error. */
  predicate Envelope(j: Value) {
    j.JObj? && "jsonrpc" in j.fields && j.fields["jsonrpc"] == JStr("2.0") &&
    (("result" in j.fields) != ("error" in j.fields))
  }

  /**
   * The loop over the reads with handler `handle`, from a point where
   * `history` has been called already: at most one envelope per read.
   */
  function Loop(handle: Handler, input: seq<Read>, history: seq<Call>): (s: Session)
    ensures |s.output| <= |input|
    ensures forall k :: 0 <= k < |s.output| ==> Envelope(s.output[k])
    decreases |input|
  {
    if input == [] || input[0].Eof? then Session([], [])
    else
      var s := handle(input[0].decoded, history);
      var rest := Loop(handle, input[1..], history + s.calls);
      Session([Render(s.response)] + rest.output, s.calls + rest.calls)
  }

  /** The server's loop. */
  function Run(input: seq<Read>, host: Host, history: seq<Call>): (s: Session)
    ensures |s.output| == LinesBeforeEof(input)
    ensures forall k :: 0 <= k < |s.output| ==> Envelope(s.output[k])
  {
    LoopLength(Handle(host), input, history);
    Loop(Handle(host), input, history)
  }

  /** No read in `input` is the end of stream. */
  predicate AllLines(input: seq<Read>) {
    forall k :: 0 <= k < |input| ==> input[k].Line?
  }

  /** How many lines come before the first end of stream. */
  function LinesBeforeEof(input: seq<Read>): (n: nat)
    ensures n <= |input|
  {
    if input == [] || input[0].Eof? then 0 else 1 + LinesBeforeEof(input[1..])
  }

  /** Running two stretches of lines one after the other is running their concatenation. */
  lemma {:induction false} LoopAppend(handle: Handler, p: seq<Read>, q: seq<Read>, history: seq<Call>)
    requires AllLines(p)
    ensures var first := Loop(handle, p, history);
            var second := Loop(handle, q, history + first.calls);
            Loop(handle, p + q, history) == Session(first.output + second.output, first.calls + second.calls)
    decreases |p|
  {
    if p == [] {
      assert p + q == q;
      assert history + [] == history;
    } else {
      var s := handle(p[0].decoded, history);
      assert (p + q)[0] == p[0];
      assert (p + q)[1..] == p[1..] + q;
      LoopAppend(handle, p[1..], q, history + s.calls);
      var first := Loop(handle, p[1..], history + s.calls);
      assert history + s.calls + first.calls == history + (s.calls + first.calls);
      var second := Loop(handle, q, history + (s.calls + first.calls));
      var tail := Loop(handle, p[1..] + q, history + s.calls);
      assert Loop(handle, p + q, history) == Session([Render(s.response)] + tail.output, s.calls + tail.calls);
      assert [Render(s.response)] + (first.output + second.output) == [Render(s.response)] + first.output + second.output;
      assert s.calls + (first.calls + second.calls) == s.calls + first.calls + second.calls;
    }
  }

  /** Running one more line appends its answer and its calls. */
  lemma LoopSnoc(handle: Handler, p: seq<Read>, line: Decoded, history: seq<Call>)
    requires AllLines(p)
    ensures var before := Loop(handle, p, history);
            var s := handle(line, history + before.calls);
            Loop(handle, p + [Line(line)], history) ==
              Session(before.output + [Render(s.response)], before.calls + s.calls)
  {
    LoopAppend(handle, p, [Line(line)], history);
    var before := Loop(handle, p, history);
    var s := handle(line, history + before.calls);
    assert [Line(line)][1..] == [];
    assert Loop(handle, [Line(line)], history + before.calls) == Session([Render(s.response)], s.calls + []);
    assert s.calls + [] == s.calls;
  }

  /** Nothing after the end of stream is read. */
  lemma LoopStopsAtEof(handle: Handler, p: seq<Read>, rest: seq<Read>, history: seq<Call>)
    requires AllLines(p)
    ensures Loop(handle, p + [Eof] + rest, history) == Loop(handle, p, history)
  {
    LoopAppend(handle, p, [Eof] + rest, history);
    assert p + [Eof] + rest == p + ([Eof] + rest);
    var first := Loop(handle, p, history);
    assert first.output + [] == first.output;
    assert first.calls + [] == first.calls;
  }

  /** One response per line, up to the end of stream. */
  lemma {:induction false} LoopLength(handle: Handler, input: seq<Read>, history: seq<Call>)
    ensures |Loop(handle, input, history).output| == LinesBeforeEof(input)
    decreases |input|
  {
    if input != [] && input[0].Line? {
      LoopLength(handle, input[1..], history + handle(input[0].decoded, history).calls);
    }
  }

  /**
   * The k-th response answers the k-th line, given the calls the earlier
   * lines made: responses come out in the order the lines come in.
   */
  lemma {:induction false} LoopAt(handle: Handler, input: seq<Read>, history: seq<Call>, k: nat)
    requires k < LinesBeforeEof(input)
    ensures input[k].Line? && AllLines(input[..k])
    ensures |Loop(handle, input, history).output| == LinesBeforeEof(input)
    ensures Loop(handle, input, history).output[k] ==
              Render(handle(input[k].decoded, history + Loop(handle, input[..k], history).calls).response)
    decreases k
  {
    LoopLength(handle, input, history);
    var s := handle(input[0].decoded, history);
    if k == 0 {
      assert input[..0] == [];
      assert history + [] == history;
    } else {
      LoopAt(handle, input[1..], history + s.calls, k - 1);
      assert input[1..][..k - 1] == input[..k][1..];
      assert input[..k][0] == input[0];
      var before := Loop(handle, input[..k][1..], history + s.calls);
      assert Loop(handle, input[..k], history).calls == s.calls + before.calls;
      assert history + s.calls + before.calls == history + (s.calls + before.calls);
    }
  }

  lemma {:induction false} LinesBeforeEofSplit(input: seq<Read>, k: nat)
    requires k < |input| && input[k].Line? && AllLines(input[..k])
    ensures LinesBeforeEof(input) == k + 1 + LinesBeforeEof(input[k + 1..])
    decreases k
  {
    if k > 0 {
      assert input[1..][..k - 1] == input[..k][1..];
      assert input[0] == input[..k][0];
      LinesBeforeEofSplit(input[1..], k - 1);
      assert input[1..][k..] == input[k + 1..];
    }
  }

  /** The k-th output of the server's loop is the answer to the k-th line. */
  lemma RunAt(input: seq<Read>, host: Host, history: seq<Call>, k: nat)
    requires k < LinesBeforeEof(input)
    ensures |Run(input, host, history).output| == LinesBeforeEof(input)
    ensures input[k].Line?
    ensures Run(input, host, history).output[k] ==
              Render(Respond(input[k].decoded, host, history + Run(input[..k], host, history).calls).response)
  {
    LoopAt(Handle(host), input, history, k);
  }

  /** A line that does not decode is answered with -32700 and no id; the lines after it are still answered. */
  lemma RunParseError(input: seq<Read>, host: Host, history: seq<Call>, k: nat, detail: string)
    requires k < |input| && input[k] == Line(Undecodable(detail))
    requires AllLines(input[..k])
    ensures LinesBeforeEof(input) == k + 1 + LinesBeforeEof(input[k + 1..])
    ensures |Run(input, host, history).output| == LinesBeforeEof(input)
    ensures Run(input, host, history).output[k] == Render(ParseErrorResponse(detail))
    ensures "id" !in Run(input, host, history).output[k].fields
  {
    LinesBeforeEofSplit(input, k);
    RunAt(input, host, history, k);
  }

  /** A request that raises is answered with -32603 and no id. */
  lemma RunInternalError(input: seq<Read>, host: Host, history: seq<Call>, k: nat)
    requires k < LinesBeforeEof(input)
    requires input[k].Line? && input[k].decoded.Parsed?
    requires HandleMessage(input[k].decoded.message, host,
               history + Run(input[..k], host, history).calls).Raised?
    ensures |Run(input, host, history).output| == LinesBeforeEof(input)
    ensures var j := Run(input, host, history).output[k];
            j == Render(InternalErrorResponse(HandleMessage(input[k].decoded.message, host,
                   history + Run(input[..k], host, history).calls).description)) &&
            "id" !in j.fields
  {
    RunAt(input, host, history, k);
  }

  /** A request the dispatcher answers is written as the dispatcher's own response, rendered. */
  lemma RunAnswersRequest(input: seq<Read>, host: Host, history: seq<Call>, k: nat, message: Value)
    requires k < LinesBeforeEof(input)
    requires input[k] == Line(Parsed(message))
    requires HandleMessage(message, host, history + Run(input[..k], host, history).calls).Handled?
    ensures |Run(input, host, history).output| == LinesBeforeEof(input)
    ensures Run(input, host, history).output[k] ==
              Render(HandleMessage(message, host, history + Run(input[..k], host, history).calls).response)
  {
    RunAt(input, host, history, k);
  }

  /** A dict request that is answered gets back its own id, at its own position. */
  lemma RunEchoesId(input: seq<Read>, host: Host, history: seq<Call>, k: nat, message: map<string, Value>)
    requires k < LinesBeforeEof(input)
    requires input[k] == Line(Parsed(JObj(message)))
    requires HandleMessage(JObj(message), host, history + Run(input[..k], host, history).calls).Handled?
    ensures |Run(input, host, history).output| == LinesBeforeEof(input)
    ensures var j := Run(input, host, history).output[k];
            j.JObj? && "id" in j.fields && j.fields["id"] == Get(message, "id")
  {
    RunAt(input, host, history, k);
  }

  /**
   * One iteration of main()'s try block: dispatch a decoded line, or write
   * the -32700 / -32603 error the except clauses write.
   */
  method Answer(line: Decoded, host: Host, history: seq<Call>) returns (response: Response, made: seq<Call>)
    ensures Step(response, made) == Respond(line, host, history)
  {
    made := [];
    match line
    case Undecodable(detail) =>
      response := ParseErrorResponse(detail);
    case Parsed(message) =>
      var handled := HandleMessage(message, host, history);
      if handled.Raised? {
        response := InternalErrorResponse(handled.description);
      } else {
        response, made := handled.response, handled.calls;
      }
  }

  /** Answering the next line extends the loop's outputs and calls by that line's answer. */
  lemma LoopExtends(handle: Handler, input: seq<Read>, i: nat, before: Session, step: Step)
    requires i < |input| && input[i].Line? && AllLines(input[..i])
    requires Loop(handle, input[..i], []) == before
    requires step == handle(input[i].decoded, before.calls)
    ensures AllLines(input[..i + 1])
    ensures Loop(handle, input[..i + 1], []) ==
              Session(before.output + [Render(step.response)], before.calls + step.calls)
  {
    var line := input[i].decoded;
    assert [] + before.calls == before.calls;
    LoopSnoc(handle, input[..i], line, []);
    assert input[i] == Line(line);
    assert input[..i + 1] == input[..i] + [Line(line)];
  }

  /** The loop's outputs are all written once it reaches the end of stream or runs out of reads. */
  lemma RunStopsAt(input: seq<Read>, host: Host, i: nat)
    requires i <= |input| && AllLines(input[..i]) && (i == |input| || input[i].Eof?)
    ensures Run(input, host, []) == Loop(Handle(host), input[..i], [])
  {
    if i < |input| {
      assert input == input[..i] + [Eof] + input[i + 1..];
      LoopStopsAtEof(Handle(host), input[..i], input[i + 1..], []);
    } else {
      assert input[..i] == input;
    }
  }

  /** main(): the loop itself, over the reads the input stream yields. */
  method Serve(input: seq<Read>, host: Host) returns (output: seq<Value>, calls: seq<Call>)
    ensures Session(output, calls) == Run(input, host, [])
    ensures |output| == LinesBeforeEof(input)
  {
    output, calls := [], [];
    var i := 0;
    while i < |input|
      invariant 0 <= i <= |input|
      invariant AllLines(input[..i])
      invariant Loop(Handle(host), input[..i], []) == Session(output, calls)
      decreases |input| - i
    {
      var read := input[i];
      if read.Eof? {
        break;
      }
      var response, made := Answer(read.decoded, host, calls);
      assert Step(response, made) == Handle(host)(read.decoded, calls);
      LoopExtends(Handle(host), input, i, Session(output, calls), Step(response, made));
      output := output + [Render(response)];
      calls := calls + made;
      i := i + 1;
    }
    RunStopsAt(input, host, i);
  }
}
