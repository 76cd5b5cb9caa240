/** One MCP session: what each message does to it and what is sent back. */
module McpSession {
  import opened Wrappers
  import opened Json
  import opened JsonRpc

  datatype ToolError = InvalidArguments(message: string) | Failed(message: string)

  datatype ToolCall = ToolCall(tool: string, arguments: Option<Json>)

  /** The registered tools. What a tool does may depend on every call made before it. */
  datatype Tools = Tools(names: set<string>, descriptors: Json, run: (seq<ToolCall>, ToolCall) -> Result<Json, ToolError>)

  datatype Setup = Setup(tools: Tools, serverVersion: string, pretty: Json -> string)

  datatype Outcome = Done | Failure(code: int)

  datatype AuditEvent = AuditEvent(call: string, toolName: Option<string>, outcome: Outcome)

  const PROTOCOL_VERSION := "2025-06-18"

  function FromResult(r: Result<Json, RpcError>): Outcome {
    if r.Ok? then Done else Failure(r.error.code)
  }

  // ----- Tool calls on the wire -----

  function ParseCall(v: Json): Option<ToolCall> {
    match v
    case Object(members) => CallFrom(Get(members, "name"), Get(members, "arguments"))
    case Array(items) =>
      if |items| == 1 then CallFrom(Some(items[0]), None)
      else if |items| == 2 then CallFrom(Some(items[0]), Some(items[1]))
      else None
    case _ => None
  }

  function CallFrom(name: Option<Json>, arguments: Option<Json>): Option<ToolCall> {
    match name
    case Some(String(text)) => Some(ToolCall(text, if arguments == Some(Null) then None else arguments))
    case _ => None
  }

  function CallResult(text: string, isError: bool, structured: Option<Json>): Json {
    Object([("content", Array([Object([("type", String("text")), ("text", String(text))])])),
            ("isError", Bool(isError))] + Optional("structuredContent", structured))
  }

  function ErrorText(e: ToolError): string {
    match e
    case InvalidArguments(message) => "invalid arguments: " + message
    case Failed(message) => message
  }

  function ErrorCode(e: ToolError): int {
    if e.InvalidArguments? then INVALID_PARAMS else INTERNAL_ERROR
  }

  // ----- What a request does -----

  datatype State = State(initialized: bool, audit: seq<AuditEvent>, calls: seq<ToolCall>)

  datatype Answer = Answer(result: Result<Json, RpcError>, toolName: Option<string>, outcome: Outcome)

  function Refused(code: I64, message: string): Answer {
    Answer(Err(RpcError(code, message, None)), None, Failure(code))
  }

  const NOT_INITIALIZED := "session is not initialized; call \"initialize\" first"

  function InitializeResult(setup: Setup): Json {
    Object([
      ("protocolVersion", String(PROTOCOL_VERSION)),
      ("serverInfo", Object([("name", String("db-headless-mcp")), ("version", String(setup.serverVersion))])),
      ("capabilities", Object([("tools", Object([]))]))
    ])
  }

  /** The answer to a call of a registered tool. */
  function RunAnswer(setup: Setup, calls: seq<ToolCall>, call: ToolCall): Answer {
    match setup.tools.run(calls, call)
    case Ok(value) => Answer(Ok(CallResult(setup.pretty(value), false, Some(value))), Some(call.tool), Done)
    case Err(e) => Answer(Ok(CallResult(ErrorText(e), true, None)), Some(call.tool), Failure(ErrorCode(e)))
  }

  function UnknownTool(name: string): Answer {
    Refused(METHOD_NOT_FOUND, "no such tool: " + name).(toolName := Some(name))
  }

  /** The registered tool a request runs, if it runs one. */
  function Runs(setup: Setup, initialized: bool, name: string, params: Option<Json>): Option<ToolCall> {
    if name == "tools/call" && initialized && params.Some? then
      match ParseCall(params.value)
      case Some(call) => if call.tool in setup.tools.names then Some(call) else None
      case None => None
    else None
  }

  function AnswerTo(setup: Setup, s: State, name: string, params: Option<Json>): Answer {
    if name == "initialize" then Answer(Ok(InitializeResult(setup)), None, Done)
    else if name != "tools/list" && name != "tools/call" then Refused(METHOD_NOT_FOUND, "unknown method: " + name)
    else if !s.initialized then Refused(INVALID_REQUEST, NOT_INITIALIZED)
    else if name == "tools/list" then Answer(Ok(Object([("tools", setup.tools.descriptors)])), None, Done)
    else if params.None? then Refused(INVALID_PARAMS, "\"tools/call\" requires params")
    else
      match ParseCall(params.value)
      case None => Refused(INVALID_PARAMS, "invalid \"tools/call\" params")
      case Some(call) =>
        if call.tool in setup.tools.names then RunAnswer(setup, s.calls, call) else UnknownTool(call.tool)
  }

  function ReplyOf(id: Id, result: Result<Json, RpcError>): Message {
    match result
    case Ok(value) => SuccessResponse(VERSION, id, value)
    case Err(error) => ErrorResponse(VERSION, Some(id), error)
  }

  /** The session after a message. */
  function Next(setup: Setup, s: State, m: Message): State {
    if !m.Request? then s
    else
      var answer := AnswerTo(setup, s, m.name, m.params);
      var run := Runs(setup, s.initialized, m.name, m.params);
      State(s.initialized || m.name == "initialize",
            s.audit + [AuditEvent(m.name, answer.toolName, answer.outcome)],
            if run.Some? then s.calls + [run.value] else s.calls)
  }

  function Reply(setup: Setup, s: State, m: Message): Option<Message> {
    if m.Request? then Some(ReplyOf(m.id, AnswerTo(setup, s, m.name, m.params).result)) else None
  }

  class McpSession {
    const setup: Setup
    var initialized: bool
    var audit: seq<AuditEvent>
    /** The tool runs so far: what the tools behind the registry have seen. */
    var calls: seq<ToolCall>

    constructor (setup: Setup)
      ensures this.setup == setup && Now() == State(false, [], [])
    {
      this.setup := setup;
      initialized := false;
      audit := [];
      calls := [];
    }

    ghost function Now(): State
      reads this
    {
      State(initialized, audit, calls)
    }

    method Handle(m: Message) returns (reply: Option<Message>)
      modifies this
      ensures Now() == Next(setup, old(Now()), m)
      ensures reply == Reply(setup, old(Now()), m)
    {
      match m {
        case Request(_, id, name, params) =>
          var r := HandleRequest(id, name, params);
          reply := Some(r);
        case _ => reply := None;
      }
    }

    method HandleRequest(id: Id, name: string, params: Option<Json>) returns (reply: Message)
      modifies this
      ensures Now() == Next(setup, old(Now()), Request(VERSION, id, name, params))
      ensures Some(reply) == Reply(setup, old(Now()), Request(VERSION, id, name, params))
    {
      hide AnswerTo, Runs;
      var answer := DispatchRequest(name, params);
      audit := audit + [AuditEvent(name, answer.toolName, answer.outcome)];
      match answer.result {
        case Ok(value) => reply := SuccessResponse(VERSION, id, value);
        case Err(error) => reply := ErrorResponse(VERSION, Some(id), error);
      }
    }

    method DispatchRequest(name: string, params: Option<Json>) returns (answer: Answer)
      modifies `initialized, `calls
      ensures answer == AnswerTo(setup, old(Now()), name, params)
      ensures initialized == (old(initialized) || name == "initialize")
      ensures var run := Runs(setup, old(initialized), name, params);
              calls == if run.Some? then old(calls) + [run.value] else old(calls)
    {
      hide ParseCall, InitializeResult;
      if name == "initialize" {
        initialized := true;
        var result := Ok(InitializeResult(setup));
        return Answer(result, None, FromResult(result));
      }
      if name == "tools/list" {
        var result := HandleToolsList();
        return Answer(result, None, FromResult(result));
      }
      if name == "tools/call" {
        answer := HandleToolsCall(params);
        return;
      }
      var error := RpcError(METHOD_NOT_FOUND, "unknown method: " + name, None);
      return Answer(Err(error), None, FromResult(Err(error)));
    }

    method HandleToolsList() returns (result: Result<Json, RpcError>)
      ensures result == AnswerTo(setup, Now(), "tools/list", None).result
    {
      if !initialized {
        return Err(RpcError(INVALID_REQUEST, NOT_INITIALIZED, None));
      }
      return Ok(Object([("tools", setup.tools.descriptors)]));
    }

    method HandleToolsCall(params: Option<Json>) returns (answer: Answer)
      modifies `calls
      ensures answer == AnswerTo(setup, old(Now()), "tools/call", params)
      ensures var run := Runs(setup, initialized, "tools/call", params);
              calls == if run.Some? then old(calls) + [run.value] else old(calls)
    {
      hide ParseCall, CallResult;
      if !initialized {
        return Answer(Err(RpcError(INVALID_REQUEST, NOT_INITIALIZED, None)), None, Failure(INVALID_REQUEST));
      }
      if params.None? {
        return Refused(INVALID_PARAMS, "\"tools/call\" requires params");
      }
      var parsed := ParseCall(params.value);
      match parsed {
        case None => return Refused(INVALID_PARAMS, "invalid \"tools/call\" params");
        case Some(call) =>
          if call.tool !in setup.tools.names {
            return UnknownTool(call.tool);
          }
          var result := setup.tools.run(calls, call);
          calls := calls + [call];
          match result {
            case Ok(value) =>
              return Answer(Ok(CallResult(setup.pretty(value), false, Some(value))), Some(call.tool), Done);
            case Err(e) =>
              return Answer(Ok(CallResult(ErrorText(e), true, None)), Some(call.tool), Failure(ErrorCode(e)));
          }
      }
    }
  }

  // ----- One exchange -----

  /** The reply tells the client of a failure: an error response, or a tool result flagged `isError`. */
  predicate TellsFailure(reply: Message) {
    || reply.ErrorResponse?
    || (reply.SuccessResponse? && reply.result.Object? && Get(reply.result.members, "isError") == Some(Bool(true)))
  }

  /** `reply` answers the request called `id`. */
  predicate RepliesTo(id: Id, reply: Message) {
    || (reply.SuccessResponse? && reply.id == id)
    || (reply.ErrorResponse? && reply.errorId == Some(id))
  }

  lemma FlaggedResult(text: string, isError: bool, structured: Option<Json>)
    ensures var r := CallResult(text, isError, structured); r.Object? && Get(r.members, "isError") == Some(Bool(isError))
  {
    var members := CallResult(text, isError, structured).members;
    assert members[1..][0] == ("isError", Bool(isError));
  }

  lemma UnflaggedResults(setup: Setup)
    ensures Get(InitializeResult(setup).members, "isError") == None
    ensures Get([("tools", setup.tools.descriptors)], "isError") == None
  {
    hide Get;
    GetAbsent(InitializeResult(setup).members, "isError");
    GetAbsent([("tools", setup.tools.descriptors)], "isError");
  }

  /**
   * One request gets one reply under its own id and one audit event under its own name, and the event
   * is a failure exactly if the reply tells the client of one, with the same code where it has a code.
   */
  lemma ExchangeSound(setup: Setup, s: State, m: Message)
    requires m.Request?
    ensures var reply, next := Reply(setup, s, m), Next(setup, s, m);
            && reply.Some? && RepliesTo(m.id, reply.value)
            && |next.audit| == |s.audit| + 1 && next.audit[..|s.audit|] == s.audit
            && var event := next.audit[|s.audit|];
               && event.call == m.name
               && (event.outcome.Failure? <==> TellsFailure(reply.value))
               && (reply.value.ErrorResponse? ==> event.outcome == Failure(reply.value.error.code))
  {
    hide Get, ParseCall, CallResult, InitializeResult;
    UnflaggedResults(setup);
    if m.params.Some? && ParseCall(m.params.value).Some? {
      var call := ParseCall(m.params.value).value;
      match setup.tools.run(s.calls, call)
      case Ok(value) => FlaggedResult(setup.pretty(value), false, Some(value));
      case Err(e) => FlaggedResult(ErrorText(e), true, None);
    }
  }

  // ----- What a tool's caller learns -----

  /** A tool call as a client writes it. */
  function CallJson(call: ToolCall): Json {
    Object([("name", String(call.tool))] + Optional("arguments", call.arguments))
  }

  /** The call a client writes is the call that is run; null arguments are none. */
  lemma CallRead(call: ToolCall)
    ensures ParseCall(CallJson(call)) == Some(if call.arguments == Some(Null) then call.(arguments := None) else call)
  {
    hide Get, Optional;
    GetFirst("name", String(call.tool), Optional("arguments", call.arguments), "name");
    GetFirst("name", String(call.tool), Optional("arguments", call.arguments), "arguments");
    GetOptional("arguments", call.arguments, "name");
    GetOptional("arguments", call.arguments, "arguments");
  }

  /** Written as an array, a call has its fields in the order name, arguments. */
  lemma CallArray(tool: string, arguments: Json)
    ensures ParseCall(Array([String(tool)])) == Some(ToolCall(tool, None))
    ensures ParseCall(Array([String(tool), arguments])) ==
            Some(ToolCall(tool, if arguments == Null then None else Some(arguments)))
  {
  }

  lemma ResultFields(text: string, isError: bool, structured: Option<Json>)
    ensures Get(CallResult(text, isError, structured).members, "structuredContent") == structured
  {
    hide Get, Optional;
    var content := Array([Object([("type", String("text")), ("text", String(text))])]);
    var rest := Optional("structuredContent", structured);
    assert CallResult(text, isError, structured).members == [("content", content)] + ([("isError", Bool(isError))] + rest);
    GetOptional("structuredContent", structured, "structuredContent");
    GetFirst("isError", Bool(isError), rest, "structuredContent");
    GetFirst("content", content, [("isError", Bool(isError))] + rest, "structuredContent");
  }

  /**
   * An initialized session runs a registered tool on the client's own arguments, once, and reports it
   * faithfully: the reply carries the tool's value and no error flag, or the flag and no value, and
   * the event has the tool's name and, for a failure, the code that fits its cause.
   */
  lemma ToolReported(setup: Setup, s: State, id: Id, call: ToolCall)
    requires s.initialized && call.tool in setup.tools.names && call.arguments != Some(Null)
    ensures var m := Request(VERSION, id, "tools/call", Some(CallJson(call)));
            var (reply, next, outcome) := (Reply(setup, s, m), Next(setup, s, m), setup.tools.run(s.calls, call));
            && next.calls == s.calls + [call]
            && reply.Some? && reply.value.SuccessResponse? && reply.value.result.Object?
            && Get(reply.value.result.members, "structuredContent") == (if outcome.Ok? then Some(outcome.value) else None)
            && Get(reply.value.result.members, "isError") == Some(Bool(outcome.Err?))
            && |next.audit| == |s.audit| + 1
            && next.audit[|s.audit|] ==
               AuditEvent("tools/call", Some(call.tool),
                          if outcome.Ok? then Done else Failure(if outcome.error.InvalidArguments? then -32602 else -32603))
  {
    hide Get, ParseCall, CallJson, CallResult;
    CallRead(call);
    match setup.tools.run(s.calls, call)
    case Ok(value) =>
      FlaggedResult(setup.pretty(value), false, Some(value));
      ResultFields(setup.pretty(value), false, Some(value));
    case Err(e) =>
      FlaggedResult(ErrorText(e), true, None);
      ResultFields(ErrorText(e), true, None);
  }

  /** The text block that clients render: the tool's value pretty-printed, or what went wrong. */
  lemma ToolText(setup: Setup, s: State, id: Id, call: ToolCall)
    requires s.initialized && call.tool in setup.tools.names && call.arguments != Some(Null)
    ensures var reply := Reply(setup, s, Request(VERSION, id, "tools/call", Some(CallJson(call))));
            var text := match setup.tools.run(s.calls, call) {
              case Ok(value) => setup.pretty(value)
              case Err(InvalidArguments(message)) => "invalid arguments: " + message
              case Err(Failed(message)) => message
            };
            && reply.Some? && reply.value.SuccessResponse? && reply.value.result.Object?
            && Get(reply.value.result.members, "content") ==
               Some(Array([Object([("type", String("text")), ("text", String(text))])]))
  {
    hide ParseCall, CallJson;
    CallRead(call);
  }

  /** What `initialize` and `tools/list` tell the client. */
  lemma ServerDescribed(setup: Setup, s: State, id: Id)
    ensures var reply := Reply(setup, s, Request(VERSION, id, "initialize", None));
            && reply.Some? && reply.value.SuccessResponse? && reply.value.result.Object?
            && Get(reply.value.result.members, "protocolVersion") == Some(String("2025-06-18"))
            && Get(reply.value.result.members, "serverInfo") ==
               Some(Object([("name", String("db-headless-mcp")), ("version", String(setup.serverVersion))]))
            && Get(reply.value.result.members, "capabilities") == Some(Object([("tools", Object([]))]))
    ensures s.initialized ==>
              Reply(setup, s, Request(VERSION, id, "tools/list", None)) ==
              Some(SuccessResponse(VERSION, id, Object([("tools", setup.tools.descriptors)])))
  {
    var (info, capabilities) :=
      (Object([("name", String("db-headless-mcp")), ("version", String(setup.serverVersion))]), Object([("tools", Object([]))]));
    var members := InitializeResult(setup).members;
    hide Get;
    assert members == [("protocolVersion", String("2025-06-18"))] + ([("serverInfo", info)] + ([("capabilities", capabilities)] + []));
    forall key: string
      ensures Get(members, key) ==
              if key == "protocolVersion" then Some(String("2025-06-18")) else if key == "serverInfo" then Some(info)
              else if key == "capabilities" then Some(capabilities) else Get([], key)
    {
      GetFirst("capabilities", capabilities, [], key);
      GetFirst("serverInfo", info, [("capabilities", capabilities)] + [], key);
      GetFirst("protocolVersion", String("2025-06-18"), [("serverInfo", info)] + ([("capabilities", capabilities)] + []), key);
    }
  }

  /** The parameters name a tool: an object with a name, or an array of a name and perhaps arguments. */
  predicate NamesTool(params: Option<Json>, tool: string) {
    params.Some? &&
    match params.value {
      case Object(members) => Get(members, "name") == Some(String(tool))
      case Array(items) => 1 <= |items| <= 2 && items[0] == String(tool)
      case _ => false
    }
  }

  /**
   * When a request is refused, and with which code of section 5.1 of JSON-RPC 2.0: an unknown method or
   * tool, anything but `initialize` too early, and a tool call that names no tool. Nothing else is.
   */
  lemma RefusedExactly(setup: Setup, s: State, id: Id, name: string, params: Option<Json>)
    ensures var reply := Reply(setup, s, Request(VERSION, id, name, params));
            var (listing, calling) := (name == "tools/list", name == "tools/call");
            var unknown := calling && s.initialized && exists tool :: NamesTool(params, tool) && tool !in setup.tools.names;
            var nameless := calling && s.initialized && !exists tool :: NamesTool(params, tool);
            && reply.Some?
            && (reply.value.ErrorResponse? <==>
                (name != "initialize" && !listing && !calling) || ((listing || calling) && !s.initialized) || unknown || nameless)
            && (reply.value.ErrorResponse? ==>
                reply.value.error.code ==
                if (listing || calling) && !s.initialized then -32600 else if nameless then -32602 else -32601)
  {
    hide Get;
    if params.Some? {
      ParseCallExactly(params.value);
    }
  }

  /** The audit log names the tool of exactly those requests that got as far as naming one, known or not. */
  lemma ToolNamesRecorded(setup: Setup, s: State, id: Id, name: string, params: Option<Json>, tool: string)
    ensures var audit := Next(setup, s, Request(VERSION, id, name, params)).audit;
            |audit| == |s.audit| + 1 &&
            (audit[|s.audit|].toolName == Some(tool) <==> name == "tools/call" && s.initialized && NamesTool(params, tool))
  {
    hide Get;
    if params.Some? {
      ParseCallExactly(params.value);
    }
  }

  lemma ParseCallExactly(v: Json)
    ensures ParseCall(v).Some? ==> NamesTool(Some(v), ParseCall(v).value.tool)
    ensures forall tool :: NamesTool(Some(v), tool) ==> ParseCall(v).Some? && ParseCall(v).value.tool == tool
  {
    hide Get;
  }
}
