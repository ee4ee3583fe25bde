/** The connection's lifecycle, its responses, and what holds over a whole run of messages. */
module McpServer {
  import opened Wrappers
  import opened Json
  import opened Text
  import opened Sorting
  import opened SchemaValidator
  import opened ToolAdapter

  const MCP_PROTOCOL_VERSION := "2025-06-18"
  const SUPPORTED_PROTOCOL_VERSIONS: set<string> := {"2025-06-18", "2025-03-26"}

  datatype Phase = New | AwaitingInitialized | Ready

  datatype Body = Answer(result: Json) | Error(code: int)

  datatype Response = Response(id: Json, body: Body)

  datatype ServerInfo = ServerInfo(name: string, version: string, instructions: string)

  // ---------------------------------------------------------------------------------------
  // Messages.

  /** A message without an id gets no response; a message that is not an object has none to give. */
  predicate IsNotification(message: Json) { message.JObject? && !Has(message, "id") }

  function IdOf(message: Json): Json { if message.JObject? then Get(message, "id") else JNull }

  function ParamsOf(message: Json): Json
    requires message.JObject?
  {
    if Has(message, "params") then At(message, "params") else JObject([])
  }

  /** A JSON-RPC 2.0 request or notification. */
  predicate IsRpc(message: Json) {
    && message.JObject?
    && Get(message, "jsonrpc") == JString("2.0")
    && Get(message, "method").JString?
    && ParamsOf(message).JObject?
  }

  predicate IsMethod(message: Json, name: string) { IsRpc(message) && Get(message, "method").text == name }

  predicate IsName(value: Json) { value.JString? && Strip(value.text) != [] }

  predicate ValidImplementation(value: Json) { value.JObject? && IsName(Get(value, "name")) && IsName(Get(value, "version")) }

  predicate ValidInitializeParams(params: Json) {
    && params.JObject?
    && Get(params, "protocolVersion").JString?
    && Get(params, "capabilities").JObject?
    && ValidImplementation(Get(params, "clientInfo"))
  }

  /** An initialize message a new connection accepts, with or without an id. */
  predicate Initializes(message: Json) { IsMethod(message, "initialize") && ValidInitializeParams(ParamsOf(message)) }

  predicate Confirms(message: Json) { IsMethod(message, "notifications/initialized") }

  function Negotiated(message: Json): (version: string)
    requires Initializes(message)
    ensures version in SUPPORTED_PROTOCOL_VERSIONS
  {
    var requested := Get(ParamsOf(message), "protocolVersion").text;
    if requested in SUPPORTED_PROTOCOL_VERSIONS then requested else MCP_PROTOCOL_VERSION
  }

  // ---------------------------------------------------------------------------------------
  // The server.

  function InitializeResult(version: string, info: ServerInfo): Json {
    JObject([Member("protocolVersion", JString(version)),
             Member("capabilities", JObject([Member("tools", JObject([Member("listChanged", JBool(false))]))])),
             Member("serverInfo", JObject([Member("name", JString(info.name)), Member("version", JString(info.version))]))]
            + if info.instructions != [] then [Member("instructions", JString(info.instructions))] else [])
  }

  /** What the server is set up with: its tools and their governance do not change during a run. */
  datatype Setup = Setup(info: ServerInfo, tools: map<string, LocalTool>, names: seq<string>, governance: Governance, regex: Regex)

  /** A connection, with the runs of handlers so far. */
  datatype Connection = Connection(phase: Phase, negotiated: Option<string>, runs: seq<Invocation>)

  const FRESH := Connection(New, None, [])

  ghost predicate ValidSetup(setup: Setup) { SortedNamesAreRegistered(setup.names, setup.tools) }

  /** The run a tools/call message asks for. */
  function RunFor(message: Json, moment: nat): Option<Invocation>
    requires IsRpc(message)
  {
    Requested(moment, Get(ParamsOf(message), "name"), Get(ParamsOf(message), "arguments"))
  }

  /** The message makes a handler run, on a connection that is ready. */
  predicate Runs(setup: Setup, message: Json, moment: nat) {
    && IsMethod(message, "tools/call")
    && RunFor(message, moment).Some?
    && MayRun(setup.tools, setup.governance, setup.regex, RunFor(message, moment).value)
  }

  function Respond(outcome: Result<Json, Failure>): Body {
    match outcome
    case Success(result) => Answer(result)
    case Failure(failure) => Error(ErrorCode(failure))
  }

  /** The adapter's answer to a well-formed message. */
  ghost function AdapterBody(setup: Setup, message: Json, moment: nat): Body
    requires ValidSetup(setup) && IsRpc(message)
  {
    if IsMethod(message, "tools/list") then
      Answer(JObject([Member("tools", JArray(Listed(setup.tools, setup.governance, Sorted(setup.names, NO_GREATER))))]))
    else if IsMethod(message, "tools/call") then
      var run := RunFor(message, moment);
      Respond(if run.Some? then CallOutcome(setup.tools, setup.governance, setup.regex, run.value) else Failure(Mcp(Protocol)))
    else Error(-32601)
  }

  /** What a message gets in a phase, were it to have an id. */
  ghost function BodyFor(setup: Setup, phase: Phase, message: Json, moment: nat): Body
    requires ValidSetup(setup)
  {
    if !IsRpc(message) then Error(-32600)
    else if IsMethod(message, "initialize") then
      if phase != New then Error(-32600)
      else if !Initializes(message) then Error(-32602)
      else Answer(InitializeResult(Negotiated(message), setup.info))
    else if Confirms(message) then
      if phase != AwaitingInitialized then Error(-32600) else Answer(JObject([]))
    else if IsMethod(message, "ping") then Answer(JObject([]))
    else if phase != Ready then Error(-32002)
    else AdapterBody(setup, message, moment)
  }

  ghost function Reply(setup: Setup, phase: Phase, message: Json, moment: nat): Option<Response>
    requires ValidSetup(setup)
  {
    if IsNotification(message) then None else Some(Response(IdOf(message), BodyFor(setup, phase, message, moment)))
  }

  /** One message: the lifecycle moves on, and a handler may run. */
  function Step(setup: Setup, connection: Connection, message: Json, moment: nat): Connection {
    if connection.phase == New && Initializes(message) then
      connection.(phase := AwaitingInitialized, negotiated := Some(Negotiated(message)))
    else if connection.phase == AwaitingInitialized && Confirms(message) then connection.(phase := Ready)
    else if connection.phase == Ready && Runs(setup, message, moment) then
      connection.(runs := connection.runs + [RunFor(message, moment).value])
    else connection
  }

  method CodeFor(failure: Failure) returns (code: int)
    ensures code == ErrorCode(failure)
  {
    if failure.Crash? {
      return -32603;
    }
    if failure.error.Protocol? || failure.error.SchemaValidation? || failure.error.NotRegistered? {
      return -32602;
    }
    if failure.error.NotAllowed? || failure.error.AuthorizationDenied? {
      return -32001;
    }
    if failure.error.SchemaDefinition? || failure.error.ToolExecution? {
      return -32000;
    }
    code := -32603;
  }

  class Server {
    const adapter: LocalAdapter
    const info: ServerInfo
    var phase: Phase
    var negotiated: Option<string>
    ghost var runs: seq<Invocation>

    ghost predicate Valid()
      reads this, adapter
    {
      adapter.Valid() && ValidSetup(SetUp())
    }

    ghost function SetUp(): Setup
      reads this, adapter
    {
      Setup(info, adapter.tools, adapter.names, adapter.governance, adapter.regex)
    }

    ghost function State(): Connection
      reads this
    {
      Connection(phase, negotiated, runs)
    }

    constructor (adapter: LocalAdapter, info: ServerInfo)
      requires adapter.Valid()
      ensures Valid() && this.adapter == adapter && this.info == info && State() == FRESH
    {
      this.adapter, this.info := adapter, info;
      phase, negotiated, runs := New, None, [];
      new;
      SortedPermutes(adapter.names, NO_GREATER);
    }

    method Initialize(message: Json) returns (body: Body)
      requires Valid() && IsMethod(message, "initialize")
      modifies this
      ensures Valid() && State() == Step(SetUp(), old(State()), message, 0)
      ensures body == BodyFor(SetUp(), old(phase), message, 0)
    {
      if phase != New {
        return Error(-32600);
      }
      var params := if Has(message, "params") then At(message, "params") else JObject([]);
      var requested, client := Get(params, "protocolVersion"), Get(params, "clientInfo");
      if !requested.JString? || !Get(params, "capabilities").JObject? || !client.JObject? {
        return Error(-32602);
      }
      var name, release := Get(client, "name"), Get(client, "version");
      if !name.JString? || Strip(name.text) == [] || !release.JString? || Strip(release.text) == [] {
        return Error(-32602);
      }
      var version := if requested.text in SUPPORTED_PROTOCOL_VERSIONS then requested.text else MCP_PROTOCOL_VERSION;
      negotiated := Some(version);
      phase := AwaitingInitialized;
      var result := [Member("protocolVersion", JString(version)),
                     Member("capabilities", JObject([Member("tools", JObject([Member("listChanged", JBool(false))]))])),
                     Member("serverInfo", JObject([Member("name", JString(info.name)), Member("version", JString(info.version))]))];
      if info.instructions != [] {
        result := result + [Member("instructions", JString(info.instructions))];
      }
      assert InitializeResult(version, info).members == result;
      body := Answer(JObject(result));
    }

    method MarkReady(message: Json) returns (body: Body)
      requires Valid() && Confirms(message)
      modifies this
      ensures Valid() && State() == Step(SetUp(), old(State()), message, 0)
      ensures body == BodyFor(SetUp(), old(phase), message, 0)
    {
      if phase != AwaitingInitialized {
        return Error(-32600);
      }
      phase := Ready;
      body := Answer(JObject([]));
    }

    /** The adapter's dispatch, on a ready connection. */
    method Dispatch(message: Json, moment: nat) returns (body: Body)
      requires Valid() && phase == Ready && IsRpc(message)
      modifies this`runs
      ensures Valid() && body == AdapterBody(SetUp(), message, moment)
      ensures runs == if Runs(SetUp(), message, moment) then old(runs) + [RunFor(message, moment).value] else old(runs)
    {
      var name := Get(message, "method").text;
      if name == "tools/list" {
        var listing := adapter.ToolsList();
        return Answer(listing);
      }
      if name == "tools/call" {
        var params := if Has(message, "params") then At(message, "params") else JObject([]);
        var outcome;
        ghost var ran;
        outcome, ran := adapter.CallTool(Get(params, "name"), Get(params, "arguments"), moment);
        if ran.Some? {
          runs := runs + [ran.value];
        }
        if outcome.Success? {
          return Answer(outcome.value);
        }
        var code := CodeFor(outcome.error);
        return Error(code);
      }
      body := Error(-32601);
    }

    /** A well-formed message, whether or not it will be answered. */
    method Process(message: Json, moment: nat) returns (body: Body)
      requires Valid() && IsRpc(message)
      modifies this
      ensures Valid() && State() == Step(SetUp(), old(State()), message, moment)
      ensures body == BodyFor(SetUp(), old(phase), message, moment)
    {
      var name := Get(message, "method").text;
      if name == "initialize" {
        body := Initialize(message);
      } else if name == "notifications/initialized" {
        body := MarkReady(message);
      } else if name == "ping" {
        body := Answer(JObject([]));
      } else if phase != Ready {
        body := Error(-32002);
      } else {
        body := Dispatch(message, moment);
      }
    }

    method Handle(message: Json, moment: nat) returns (response: Option<Response>)
      requires Valid()
      modifies this
      ensures Valid() && SetUp() == old(SetUp())
      ensures State() == Step(SetUp(), old(State()), message, moment)
      ensures response == Reply(SetUp(), old(phase), message, moment)
    {
      if !message.JObject? {
        return Some(Response(JNull, Error(-32600)));
      }
      var id := Get(message, "id");
      var isNotification := !Has(message, "id");
      if Get(message, "jsonrpc") != JString("2.0") {
        return if isNotification then None else Some(Response(id, Error(-32600)));
      }
      if !Get(message, "method").JString? || (Has(message, "params") && !At(message, "params").JObject?) {
        return if isNotification then None else Some(Response(id, Error(-32600)));
      }
      var body := Process(message, moment);
      response := if isNotification then None else Some(Response(id, body));
    }
  }
}
