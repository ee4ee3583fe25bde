/** The governed tool adapter: allowlist, schema, authorization hook, then the handler. */
module ToolAdapter {
  import opened Wrappers
  import opened Json
  import opened SchemaValidator
  import opened Sorting

  datatype McpError =
    | Protocol | SchemaDefinition | SchemaValidation | NotAllowed | AuthorizationDenied | NotRegistered | ToolExecution | Unspecified

  /** A call fails with an error of the adapter's own, or with any other exception. */
  datatype Failure = Mcp(error: McpError) | Crash

  /** What a hook does: raise, answer, or answer with something that is not a decision. */
  datatype Answer = Raised | Decided(allowed: bool) | NoDecision

  /** What a handler does; `Unconvertible` stands for a result that cannot be turned into a response. */
  datatype Handled = Returned(result: Json) | RaisedMcp(error: McpError) | RaisedOther | Unconvertible

  /** Hooks and handlers may answer differently at every `moment`. */
  datatype Governance = Governance(allowed: set<string>, hook: Option<(nat, string, Json) -> Answer>)

  datatype LocalTool = LocalTool(name: string, description: string, schema: Json, handler: (nat, Json) -> Handled)

  /** One run of a handler. */
  datatype Invocation = Invocation(moment: nat, name: string, arguments: Json)

  predicate IsAllowed(governance: Governance, name: string) { name in governance.allowed }

  /** Every step of the authorization fails closed. */
  function Authorize(governance: Governance, moment: nat, name: string, arguments: Json): Option<McpError> {
    if !IsAllowed(governance, name) then Some(NotAllowed)
    else if governance.hook == None then None
    else
      match governance.hook.value(moment, name, arguments)
      case Raised => Some(AuthorizationDenied)
      case NoDecision => Some(AuthorizationDenied)
      case Decided(allowed) => if allowed then None else Some(AuthorizationDenied)
  }

  /** The hook, if there is one, says yes. */
  predicate Approves(governance: Governance, moment: nat, name: string, arguments: Json) {
    governance.hook.Some? ==> governance.hook.value(moment, name, arguments) == Decided(true)
  }

  /** The handler may see these arguments: allowlisted, registered, schema-valid and approved. */
  predicate MayRun(tools: map<string, LocalTool>, governance: Governance, regex: Regex, run: Invocation) {
    && run.name != [] && run.arguments.JObject?
    && run.name in governance.allowed
    && run.name in tools
    && ValidateArguments(run.arguments, tools[run.name].schema, regex) == Valid
    && Approves(governance, run.moment, run.name, run.arguments)
  }

  /** The run a call asks for; missing arguments are an empty object. */
  function Requested(moment: nat, name: Json, arguments: Json): Option<Invocation> {
    if name.JString? then Some(Invocation(moment, name.text, if arguments.JNull? then JObject([]) else arguments)) else None
  }

  /** What comes of a handler's run. */
  function Conclude(handled: Handled): Result<Json, Failure> {
    match handled
    case Returned(result) => Success(result)
    case RaisedMcp(error) => Failure(Mcp(error))
    case RaisedOther => Failure(Mcp(ToolExecution))
    case Unconvertible => Failure(Crash)
  }

  /** Why a request that may not run is refused: the first check that fails. */
  function Refusal(tools: map<string, LocalTool>, governance: Governance, regex: Regex, run: Invocation): McpError {
    if run.name == [] then Protocol
    else if !run.arguments.JObject? then SchemaValidation
    else if run.name !in governance.allowed then NotAllowed
    else if run.name !in tools then NotRegistered
    else
      match ValidateArguments(run.arguments, tools[run.name].schema, regex)
      case Invalid => SchemaValidation
      case BadSchema => SchemaDefinition
      case Valid => AuthorizationDenied
  }

  /** The call's outcome: of the handler if it may run, else the refusal. */
  function CallOutcome(tools: map<string, LocalTool>, governance: Governance, regex: Regex, run: Invocation): Result<Json, Failure> {
    if MayRun(tools, governance, regex, run) then Conclude(tools[run.name].handler(run.moment, run.arguments))
    else Failure(Mcp(Refusal(tools, governance, regex, run)))
  }

  function ErrorCode(failure: Failure): int {
    match failure
    case Crash => -32603
    case Mcp(error) =>
      match error
      case Protocol => -32602
      case SchemaValidation => -32602
      case NotRegistered => -32602
      case NotAllowed => -32001
      case AuthorizationDenied => -32001
      case SchemaDefinition => -32000
      case ToolExecution => -32000
      case Unspecified => -32603
  }

  function Definition(tool: LocalTool): Json {
    JObject([Member("name", JString(tool.name)), Member("description", JString(tool.description)), Member("inputSchema", tool.schema)])
  }

  /** The definitions of the allowed tools among these names, in order. */
  function Listed(tools: map<string, LocalTool>, governance: Governance, names: seq<string>): seq<Json>
    requires forall n :: n in names ==> n in tools
  {
    if names == [] then []
    else
      var last := |names| - 1;
      Listed(tools, governance, names[..last])
      + if IsAllowed(governance, names[last]) then [Definition(tools[names[last]])] else []
  }

  class LocalAdapter {
    const governance: Governance
    const regex: Regex
    var tools: map<string, LocalTool>
    /** The dictionary's insertion order. */
    var names: seq<string>

    ghost predicate Valid()
      reads this
    {
      && Distinct(names)
      && (forall n :: n in names <==> n in tools)
      && (forall n :: n in tools ==> tools[n].name == n && tools[n].schema.JObject?)
    }

    constructor (governance: Governance, regex: Regex)
      ensures Valid() && tools == map[] && this.governance == governance && this.regex == regex
    {
      this.governance, this.regex := governance, regex;
      tools, names := map[], [];
    }

    /** A name is registered once; a second tool of that name changes nothing. */
    method Register(tool: LocalTool) returns (registered: bool)
      requires Valid() && tool.schema.JObject?
      modifies this
      ensures Valid()
      ensures registered <==> tool.name !in old(tools)
      ensures tools == if registered then old(tools)[tool.name := tool] else old(tools)
      ensures registered ==> names == old(names) + [tool.name]
      ensures !registered ==> names == old(names)
    {
      if tool.name in tools {
        return false;
      }
      tools := tools[tool.name := tool];
      names := names + [tool.name];
      registered := true;
    }

    method ToolsList() returns (listing: Json)
      requires Valid()
      ensures SortedNamesAreRegistered(names, tools) && Ordered(Sorted(names, NO_GREATER), NO_GREATER)
      ensures listing == JObject([Member("tools", JArray(Listed(tools, governance, Sorted(names, NO_GREATER))))])
    {
      var sorted := Sorted(names, NO_GREATER);
      SortedPermutes(names, NO_GREATER);
      StringsAreSorted(names);
      var definitions := AllowedDefinitions(sorted);
      listing := JObject([Member("tools", JArray(definitions))]);
    }

    method AllowedDefinitions(sorted: seq<string>) returns (definitions: seq<Json>)
      requires forall n :: n in sorted ==> n in tools
      ensures definitions == Listed(tools, governance, sorted)
    {
      definitions := [];
      for i := 0 to |sorted|
        invariant definitions == Listed(tools, governance, sorted[..i])
      {
        assert sorted[..i + 1][..i] == sorted[..i];
        if sorted[i] in governance.allowed {
          var tool := tools[sorted[i]];
          definitions := definitions + [JObject([Member("name", JString(tool.name)), Member("description", JString(tool.description)),
                                                 Member("inputSchema", tool.schema)])];
        }
      }
      assert sorted[..|sorted|] == sorted;
    }

    /** A handler runs exactly when it may, on exactly the arguments checked. */
    method CallTool(name: Json, arguments: Json, moment: nat) returns (outcome: Result<Json, Failure>, ghost ran: Option<Invocation>)
      requires Valid()
      ensures var run := Requested(moment, name, arguments);
              outcome == if run.Some? then CallOutcome(tools, governance, regex, run.value) else Failure(Mcp(Protocol))
      ensures var run := Requested(moment, name, arguments);
              ran == if run.Some? && MayRun(tools, governance, regex, run.value) then run else None
    {
      ran := None;
      if !name.JString? || name.text == [] {
        return Failure(Mcp(Protocol)), ran;
      }
      var given := if arguments.JNull? then JObject([]) else arguments;
      if !given.JObject? {
        return Failure(Mcp(SchemaValidation)), ran;
      }
      if name.text !in governance.allowed {
        return Failure(Mcp(NotAllowed)), ran;
      }
      if name.text !in tools {
        return Failure(Mcp(NotRegistered)), ran;
      }
      var tool := tools[name.text];
      var verdict := ValidateArguments(given, tool.schema, regex);
      if verdict == Invalid {
        return Failure(Mcp(SchemaValidation)), ran;
      }
      if verdict == BadSchema {
        return Failure(Mcp(SchemaDefinition)), ran;
      }
      var denied := Authorize(governance, moment, name.text, given);
      if denied.Some? {
        return Failure(Mcp(denied.value)), ran;
      }
      ran := Some(Invocation(moment, name.text, given));
      match tool.handler(moment, given)
      case Returned(result) => outcome := Success(result);
      case RaisedMcp(error) => outcome := Failure(Mcp(error));
      case RaisedOther => outcome := Failure(Mcp(ToolExecution));
      case Unconvertible => outcome := Failure(Crash);
    }
  }

  ghost predicate SortedNamesAreRegistered(names: seq<string>, tools: map<string, LocalTool>) {
    forall n :: n in Sorted(names, NO_GREATER) ==> n in tools
  }

  /** A listing shows the definition of every tool that is both registered and allowlisted, and no other. */
  lemma {:induction false} ListingShowsAllowedTools(tools: map<string, LocalTool>, governance: Governance, names: seq<string>)
    requires forall n :: n in names ==> n in tools
    ensures forall d :: d in Listed(tools, governance, names) <==>
              exists n :: n in names && n in governance.allowed && d == Definition(tools[n])
  {
    if names != [] {
      var last := |names| - 1;
      ListingShowsAllowedTools(tools, governance, names[..last]);
      forall d
        ensures d in Listed(tools, governance, names) <==>
                  exists n :: n in names && n in governance.allowed && d == Definition(tools[n])
      {
        if n :| n in names && n in governance.allowed && d == Definition(tools[n]) {
          assert n in names[..last] || n == names[last];
        }
      }
    }
  }

  /** A handler that runs sees only arguments that satisfy its schema, when that is well formed. */
  lemma RunsOnSatisfyingArguments(tools: map<string, LocalTool>, governance: Governance, regex: Regex, run: Invocation)
    requires MayRun(tools, governance, regex, run) && WellFormed(tools[run.name].schema, regex)
    ensures Satisfies(run.arguments, tools[run.name].schema, regex, false)
  {
    ArgumentsAreDecided(run.arguments, tools[run.name].schema, regex);
  }
}
