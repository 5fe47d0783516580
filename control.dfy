/**
 * The MCP side of the bridge (main.go:488-597): routing of the envelopes read
 * from standard input, the list-tools and call-tool handlers, the error
 * envelope, and the loop that reads line after line. A response is the
 * envelope that would be marshalled and printed. The clock, the random draw
 * and the transport outcome of each dispatch are part of the input line, and
 * so are the changes the WebSocket handler made to the active-connection slot
 * since the previous line: each request sees the slot as it is when it is read.
 */
module Control {
  import opened Messages
  import Token
  import opened Transport

  const ListToolsRequest := "mcp:request/list-tools@v1"
  const CallToolRequest := "mcp:request/call-tool@v1"
  const ListToolsResponseSchema := "mcp:response/list-tools@v1"
  const CallToolResponseSchema := "mcp:response/call-tool@v1"
  const ErrorSchema := "mcp:error@v1"

  /** The `result` of an MCPResponse, or the `error` of an MCPErrorResponse. */
  datatype Body =
    | ToolList(tools: seq<Tool>)
    | ToolResult(content: seq<ContentItem>)
    | Failure(message: string)

  /** MCPResponse and MCPErrorResponse. */
  datatype Response = Response(schema: string, id: string, body: Body)

  /** createErrorResponse (main.go:551-563). */
  function ErrorResponse(id: string, message: string): Response
  {
    Response(ErrorSchema, id, Failure(message))
  }

  /** handleListTools (main.go:489-499). */
  function ListToolsResponse(id: string): Response
  {
    Response(ListToolsResponseSchema, id, ToolList(AllTools))
  }

  /** Whether handleCallTool reaches the dispatcher, and with what. */
  datatype Plan = Reject(response: Response) | Forward(name: string, arguments: Raw)

  /** The checks of handleCallTool before the dispatcher is called (main.go:503-511). */
  function PlanCallTool(codec: Codec, id: string, params: Raw): Plan
  {
    match codec.decodeCallParams(params)
    case Invalid(detail) => Reject(ErrorResponse(id, "Invalid call tool parameters: " + detail))
    case Parsed(p) =>
      if p.arguments.None? then Reject(ErrorResponse(id, "No arguments provided"))
      else Forward(p.name, p.arguments.value)
  }

  /** The mapping of the dispatcher's outcome to an envelope (main.go:514-547). */
  function CallToolOutcome(codec: Codec, id: string, dispatched: Result<Raw>): Response
  {
    match dispatched
    case Err(message) => ErrorResponse(id, message)
    case Ok(reply) =>
      match codec.decodeReply(reply)
      case Invalid(detail) => ErrorResponse(id, "Error parsing extension response: " + detail)
      case Parsed(r) =>
        if r.error.Some? then ErrorResponse(id, r.error.value.message)
        else Response(CallToolResponseSchema, id, ToolResult([ContentItem("text", r.result)]))
  }

  /** Inputs the handler takes from outside for one request: the clock, the random draw and the transport. */
  datatype Env = Env(unixSeconds: int, suffix: Token.Suffix, outcome: Outcome)

  /**
   * A handled request: its response, the registry afterwards, the request
   * written to the extension, if any, and the heartbeat acknowledgements the
   * read loop wrote while the request waited.
   */
  datatype Answered = Answered(response: Response, registry: Registry, sent: Option<JsonRpcRequest>, acks: seq<JsonRpcResponse>)

  /** handleCallTool. */
  function CallTool(codec: Codec, active: Option<ConnId>, registry: Registry, id: string, params: Raw, env: Env): Answered
  {
    match PlanCallTool(codec, id, params)
    case Reject(response) => Answered(response, registry, None, [])
    case Forward(name, arguments) =>
      var d := Dispatch(active, registry, name, arguments, env.unixSeconds, env.suffix, env.outcome);
      Answered(CallToolOutcome(codec, id, d.result), d.registry, d.sent, d.acks)
  }

  /** The `switch` on the schema tag (main.go:580-589). */
  function Answer(codec: Codec, active: Option<ConnId>, registry: Registry, request: McpRequest, env: Env): Answered
  {
    if request.schema == ListToolsRequest then
      Answered(ListToolsResponse(request.id), registry, None, [])
    else if request.schema == CallToolRequest then
      CallTool(codec, active, registry, request.id, request.params, env)
    else
      Answered(ErrorResponse(request.id, "Unknown schema: " + request.schema), registry, None, [])
  }

  /**
   * One line of standard input, the slot changes made since the previous
   * line, and the inputs its dispatch would see.
   */
  datatype Line = Line(changes: seq<SlotChange>, text: string, env: Env)

  /** The request a line carries, if the loop handles it at all. */
  function Accepted(codec: Codec, line: Line): Option<McpRequest>
  {
    if line.text == "" then None
    else match codec.decodeRequest(line.text)
      case Invalid(_) => None
      case Parsed(request) => Some(request)
  }

  /**
   * The state of the stdin loop: responses printed, the slot, the registry,
   * the requests written to the extension and the heartbeat acknowledgements
   * written during the waits.
   */
  datatype Session = Session(outputs: seq<Response>, active: Option<ConnId>, registry: Registry,
                             sent: seq<JsonRpcRequest>, acks: seq<JsonRpcResponse>)

  function SentOf(sent: Option<JsonRpcRequest>): seq<JsonRpcRequest>
  {
    if sent.Some? then [sent.value] else []
  }

  /** handleMCPRequests over `lines`, one line after the other, from the slot `active`. */
  function Serve(codec: Codec, active: Option<ConnId>, registry: Registry, lines: seq<Line>): Session
    decreases |lines|
  {
    if lines == [] then Session([], active, registry, [], [])
    else
      var before := Serve(codec, active, registry, lines[..|lines| - 1]);
      var line := lines[|lines| - 1];
      var slot := Apply(before.active, line.changes);
      match Accepted(codec, line)
      case None => Session(before.outputs, slot, before.registry, before.sent, before.acks)
      case Some(request) =>
        var a := Answer(codec, slot, before.registry, request, line.env);
        Session(before.outputs + [a.response], slot, a.registry, before.sent + SentOf(a.sent), before.acks + a.acks)
  }

  /** The IDs of the requests the loop handles, in order: an account of its output that does not run the handlers. */
  function AcceptedIds(codec: Codec, lines: seq<Line>): seq<string>
    decreases |lines|
  {
    if lines == [] then []
    else
      var last := Accepted(codec, lines[|lines| - 1]);
      AcceptedIds(codec, lines[..|lines| - 1]) + (if last.Some? then [last.value.id] else [])
  }

  function Ids(responses: seq<Response>): seq<string>
    decreases |responses|
  {
    if responses == [] then [] else Ids(responses[..|responses| - 1]) + [responses[|responses| - 1].id]
  }

  // ---------------------------------------------------------------------------
  // Properties

  /**
   * Routing: list-tools lists the whole catalog, call-tool answers with a
   * call-tool or an error envelope, any other tag is an error naming it. Every
   * response echoes the request's ID. Only call-tool can reach the transport,
   * and it is answered by handleCallTool.
   */
  lemma AnswerRoutes(codec: Codec, active: Option<ConnId>, registry: Registry, request: McpRequest, env: Env)
    ensures var a := Answer(codec, active, registry, request, env);
      && a.response.id == request.id
      && (request.schema == ListToolsRequest ==>
            a == Answered(Response(ListToolsResponseSchema, request.id, ToolList(AllTools)), registry, None, []))
      && (request.schema == CallToolRequest ==>
            a == CallTool(codec, active, registry, request.id, request.params, env)
            && a.response.schema in {CallToolResponseSchema, ErrorSchema})
      && (request.schema != ListToolsRequest && request.schema != CallToolRequest ==>
            a == Answered(ErrorResponse(request.id, "Unknown schema: " + request.schema), registry, None, []))
  {
  }

  /** Undecodable parameters and missing arguments are answered without calling the dispatcher. */
  lemma CallToolRejects(codec: Codec, active: Option<ConnId>, registry: Registry, id: string, params: Raw, env: Env)
    requires codec.decodeCallParams(params).Invalid? || codec.decodeCallParams(params).value.arguments.None?
    ensures var a := CallTool(codec, active, registry, id, params, env);
      && a.registry == registry && a.sent.None? && a.acks == []
      && a.response == ErrorResponse(id,
           if codec.decodeCallParams(params).Invalid?
           then "Invalid call tool parameters: " + codec.decodeCallParams(params).detail
           else "No arguments provided")
  {
  }

  /**
   * The outcome mapping: the envelope is a success exactly when the dispatcher
   * returned a message that decodes and carries no error. It then holds one
   * text item with the raw result. Otherwise it is an error envelope carrying
   * the dispatcher's message, the decode error or the remote message.
   */
  lemma CallToolOutcomeCases(codec: Codec, id: string, dispatched: Result<Raw>)
    ensures var r := CallToolOutcome(codec, id, dispatched);
      && r.id == id
      && (r.schema == CallToolResponseSchema <==>
            dispatched.Ok? && codec.decodeReply(dispatched.value).Parsed? && codec.decodeReply(dispatched.value).value.error.None?)
      && (r.schema == CallToolResponseSchema ==>
            r.body == ToolResult([ContentItem("text", codec.decodeReply(dispatched.value).value.result)]))
      && (r.schema != CallToolResponseSchema ==> r.schema == ErrorSchema && r.body.Failure?)
      && (dispatched.Err? ==> r.body == Failure(dispatched.message))
      && (dispatched.Ok? && codec.decodeReply(dispatched.value).Invalid? ==>
            r.body == Failure("Error parsing extension response: " + codec.decodeReply(dispatched.value).detail))
      && (dispatched.Ok? && codec.decodeReply(dispatched.value).Parsed? && codec.decodeReply(dispatched.value).value.error.Some? ==>
            r.body == Failure(codec.decodeReply(dispatched.value).value.error.value.message))
  {
  }

  /** With no connection a call-tool request with arguments is answered by the no-connection error and writes nothing. */
  lemma CallToolWithoutConnection(codec: Codec, registry: Registry, id: string, params: Raw, env: Env)
    requires codec.decodeCallParams(params).Parsed? && codec.decodeCallParams(params).value.arguments.Some?
    ensures var a := CallTool(codec, None, registry, id, params, env);
      a.response == ErrorResponse(id, NoConnection) && a.registry == registry && a.sent.None? && a.acks == []
  {
    var p := codec.decodeCallParams(params).value;
    DispatchWithoutConnection(registry, p.name, p.arguments.value, env.unixSeconds, env.suffix, env.outcome);
  }

  /** Empty and undecodable lines print nothing; every other line prints exactly one response, echoing its ID, in order. */
  lemma {:induction false} ServeEchoesIds(codec: Codec, active: Option<ConnId>, registry: Registry, lines: seq<Line>)
    ensures Ids(Serve(codec, active, registry, lines).outputs) == AcceptedIds(codec, lines)
    decreases |lines|
  {
    if lines != [] {
      var init := lines[..|lines| - 1];
      ServeEchoesIds(codec, active, registry, init);
      var before := Serve(codec, active, registry, init);
      var line := lines[|lines| - 1];
      var slot := Apply(before.active, line.changes);
      match Accepted(codec, line)
      case None =>
      case Some(request) =>
        var a := Answer(codec, slot, before.registry, request, line.env);
        AnswerRoutes(codec, slot, before.registry, request, line.env);
        var outs := before.outputs + [a.response];
        assert outs[..|outs| - 1] == before.outputs;
    }
  }

  /** Between requests no correlation entry is left: an empty registry is empty again after every line. */
  lemma {:induction false} ServeStaysIdle(codec: Codec, active: Option<ConnId>, lines: seq<Line>)
    ensures Serve(codec, active, map[], lines).registry == map[]
    decreases |lines|
  {
    if lines != [] {
      var init := lines[..|lines| - 1];
      ServeStaysIdle(codec, active, init);
      var before := Serve(codec, active, map[], init);
      var line := lines[|lines| - 1];
      var slot := Apply(before.active, line.changes);
      match Accepted(codec, line)
      case None =>
      case Some(request) =>
        if request.schema == CallToolRequest {
          match PlanCallTool(codec, request.id, request.params)
          case Reject(_) =>
          case Forward(name, arguments) =>
            DispatchLeavesNoEntry(slot, before.registry, name, arguments,
                                  line.env.unixSeconds, line.env.suffix, line.env.outcome);
        }
    }
  }

  /** A line the loop answers with handleCallTool, whose checks let it reach the dispatcher. */
  predicate ForwardsCall(codec: Codec, line: Line)
  {
    && Accepted(codec, line).Some?
    && Accepted(codec, line).value.schema == CallToolRequest
    && PlanCallTool(codec, Accepted(codec, line).value.id, Accepted(codec, line).value.params).Forward?
  }

  /**
   * Each request sees the slot as it is when the request is read: a call made
   * before the extension connects is answered with the no-connection error,
   * and the same kind of call made after it connects is written to it.
   */
  lemma ConnectBetweenRequests(codec: Codec, first: Line, second: Line, conn: ConnId)
    requires first.changes == [] && second.changes == [Connect(conn)]
    requires ForwardsCall(codec, first) && ForwardsCall(codec, second)
    requires !second.env.outcome.MarshalFails?
    ensures var s := Serve(codec, None, map[], [first, second]);
      var request := Accepted(codec, second).value;
      var plan := PlanCallTool(codec, request.id, request.params);
      && |s.outputs| == 2
      && s.outputs[0] == ErrorResponse(Accepted(codec, first).value.id, NoConnection)
      && s.outputs[1].id == request.id
      && s.sent == [JsonRpcRequest("2.0", Token.Make(plan.name, second.env.unixSeconds, second.env.suffix), plan.name, plan.arguments)]
      && s.active == Some(conn)
      && s.registry == map[]
  {
    var lines := [first, second];
    assert lines[..1] == [first] && [first][..0] == [];
    var r1 := Accepted(codec, first).value;
    CallToolWithoutConnection(codec, map[], r1.id, r1.params, first.env);
    assert Apply(None, first.changes) == None;
    var a1 := Answer(codec, None, map[], r1, first.env);
    assert a1 == Answered(ErrorResponse(r1.id, NoConnection), map[], None, []);
    assert [] + [a1.response] == [a1.response];
    assert Serve(codec, None, map[], []) == Session([], None, map[], [], []);
    assert Accepted(codec, first) == Some(r1);
    var before := Serve(codec, None, map[], [first]);
    assert before == Session([ErrorResponse(r1.id, NoConnection)], None, map[], [], []);
    var request := Accepted(codec, second).value;
    var plan := PlanCallTool(codec, request.id, request.params);
    var e := second.env;
    DispatchRegistersFirst(conn, map[], plan.name, plan.arguments, e.unixSeconds, e.suffix, e.outcome);
    DispatchLeavesNoEntry(Some(conn), map[], plan.name, plan.arguments, e.unixSeconds, e.suffix, e.outcome);
  }

  // ---------------------------------------------------------------------------
  // The handlers as they run against the shared state

  /** handleCallTool against the bridge. */
  method HandleCallTool(bridge: Bridge, codec: Codec, id: string, params: Raw, env: Env)
    returns (response: Response, sent: Option<JsonRpcRequest>, acks: seq<JsonRpcResponse>)
    modifies bridge
    ensures var a := CallTool(codec, old(bridge.active), old(bridge.registry), id, params, env);
      response == a.response && sent == a.sent && acks == a.acks && bridge.registry == a.registry
    ensures bridge.active == old(bridge.active)
  {
    match codec.decodeCallParams(params)
    case Invalid(detail) =>
      return ErrorResponse(id, "Invalid call tool parameters: " + detail), None, [];
    case Parsed(p) =>
      if p.arguments.None? {
        return ErrorResponse(id, "No arguments provided"), None, [];
      }
      var result;
      result, sent, acks := bridge.Invoke(p.name, p.arguments.value, env.unixSeconds, env.suffix, env.outcome);
      response := CallToolOutcome(codec, id, result);
  }

  /** The body of the stdin loop for one decoded request. */
  method Respond(bridge: Bridge, codec: Codec, request: McpRequest, env: Env)
    returns (response: Response, sent: Option<JsonRpcRequest>, acks: seq<JsonRpcResponse>)
    modifies bridge
    ensures var a := Answer(codec, old(bridge.active), old(bridge.registry), request, env);
      response == a.response && sent == a.sent && acks == a.acks && bridge.registry == a.registry
    ensures bridge.active == old(bridge.active)
  {
    if request.schema == ListToolsRequest {
      response, sent, acks := ListToolsResponse(request.id), None, [];
    } else if request.schema == CallToolRequest {
      response, sent, acks := HandleCallTool(bridge, codec, request.id, request.params, env);
    } else {
      response, sent, acks := ErrorResponse(request.id, "Unknown schema: " + request.schema), None, [];
    }
  }

  /**
   * handleMCPRequests: before each line the WebSocket handler's slot changes
   * take effect; then the line is answered, unless it is empty or undecodable.
   */
  method HandleMcpRequests(bridge: Bridge, codec: Codec, lines: seq<Line>)
    returns (outputs: seq<Response>, sent: seq<JsonRpcRequest>, acks: seq<JsonRpcResponse>)
    modifies bridge
    ensures var s := Serve(codec, old(bridge.active), old(bridge.registry), lines);
      && outputs == s.outputs && sent == s.sent && acks == s.acks
      && bridge.active == s.active && bridge.registry == s.registry
    ensures Ids(outputs) == AcceptedIds(codec, lines)
    ensures old(bridge.Idle()) ==> bridge.Idle()
  {
    ghost var active, start := bridge.active, bridge.registry;
    outputs, sent, acks := [], [], [];
    var i := 0;
    while i < |lines|
      invariant 0 <= i <= |lines|
      invariant Serve(codec, active, start, lines[..i]) == Session(outputs, bridge.active, bridge.registry, sent, acks)
    {
      assert lines[..i + 1][..i] == lines[..i];
      var line := lines[i];
      bridge.Reconnect(line.changes);
      if line.text != "" {
        match codec.decodeRequest(line.text)
        case Invalid(_) =>
        case Parsed(request) =>
          var response, one, waited := Respond(bridge, codec, request, line.env);
          outputs := outputs + [response];
          sent := sent + SentOf(one);
          acks := acks + waited;
      }
      i := i + 1;
    }
    assert lines[..i] == lines;
    ServeEchoesIds(codec, active, start, lines);
    if start == map[] {
      ServeStaysIdle(codec, active, lines);
    }
  }
}
