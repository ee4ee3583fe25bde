/** Whole runs of a connection: the line loop, and what every sequence of messages keeps. */
module McpRuns {
  import opened Wrappers
  import opened Json
  import opened Text
  import opened ToolAdapter
  import opened McpServer

  /** The connection after these messages; a message's moment is its position. */
  function Run(setup: Setup, messages: seq<Json>): Connection {
    if messages == [] then FRESH
    else
      var last := |messages| - 1;
      Step(setup, Run(setup, messages[..last]), messages[last], last)
  }

  /** A line is blank, or does not parse, or holds a message. */
  datatype Line = Blank | Garbled | Message(message: Json)

  function Read(raw: string, parse: string -> Option<Json>): Line {
    var line := Strip(raw);
    if line == [] then Blank
    else if parse(line) == None then Garbled
    else Message(parse(line).value)
  }

  method ReadLine(raw: string, parse: string -> Option<Json>) returns (line: Line)
    ensures line == Read(raw, parse)
  {
    var text := Strip(raw);
    if text == [] {
      return Blank;
    }
    var message := parse(text);
    line := if message.Some? then Message(message.value) else Garbled;
  }

  function Messages(lines: seq<Line>): seq<Json> {
    if lines == [] then []
    else
      var last := |lines| - 1;
      Messages(lines[..last]) + if lines[last].Message? then [lines[last].message] else []
  }

  /** What one more line makes the server write. */
  ghost function Written(setup: Setup, before: seq<Json>, line: Line): seq<Response>
    requires ValidSetup(setup)
  {
    match line
    case Blank => []
    case Garbled => [Response(JNull, Error(-32700))]
    case Message(message) =>
      match Reply(setup, Run(setup, before).phase, message, |before|)
      case None => []
      case Some(response) => [response]
  }

  ghost function Output(setup: Setup, lines: seq<Line>): seq<Response>
    requires ValidSetup(setup)
  {
    if lines == [] then []
    else
      var last := |lines| - 1;
      Output(setup, lines[..last]) + Written(setup, Messages(lines[..last]), lines[last])
  }

  function ReadAll(raw: seq<string>, parse: string -> Option<Json>): (lines: seq<Line>)
    ensures |lines| == |raw| && forall i :: 0 <= i < |raw| ==> lines[i] == Read(raw[i], parse)
  {
    seq(|raw|, i requires 0 <= i < |raw| => Read(raw[i], parse))
  }

  /** One line of the loop, after these messages. */
  method ServeLine(server: Server, line: Line, ghost before: seq<Json>, moment: nat) returns (written: seq<Response>)
    requires server.Valid() && server.State() == Run(server.SetUp(), before) && moment == |before|
    modifies server
    ensures server.Valid() && server.SetUp() == old(server.SetUp())
    ensures server.State() == Run(server.SetUp(), if line.Message? then before + [line.message] else before)
    ensures written == Written(server.SetUp(), before, line)
  {
    match line
    case Blank =>
      written := [];
    case Garbled =>
      written := [Response(JNull, Error(-32700))];
    case Message(message) =>
      RunOfMore(server.SetUp(), before, message);
      var response := server.Handle(message, moment);
      written := if response.Some? then [response.value] else [];
  }

  lemma MessagesOfMore(lines: seq<Line>, i: nat)
    requires i < |lines|
    ensures Messages(lines[..i + 1]) == if lines[i].Message? then Messages(lines[..i]) + [lines[i].message] else Messages(lines[..i])
  {
    assert lines[..i + 1][..i] == lines[..i];
  }

  lemma OutputOfMore(setup: Setup, lines: seq<Line>, i: nat)
    requires ValidSetup(setup) && i < |lines|
    ensures Output(setup, lines[..i + 1]) == Output(setup, lines[..i]) + Written(setup, Messages(lines[..i]), lines[i])
  {
    assert lines[..i + 1][..i] == lines[..i];
  }

  /** The line loop, over the lines of a whole input. */
  method ServeStdio(server: Server, raw: seq<string>, parse: string -> Option<Json>) returns (output: seq<Response>)
    requires server.Valid() && server.State() == FRESH
    modifies server
    ensures server.Valid() && server.SetUp() == old(server.SetUp())
    ensures server.State() == Run(server.SetUp(), Messages(ReadAll(raw, parse)))
    ensures output == Output(server.SetUp(), ReadAll(raw, parse))
  {
    ghost var lines := ReadAll(raw, parse);
    output := [];
    var handled := 0;
    for i := 0 to |raw|
      invariant server.Valid() && server.SetUp() == old(server.SetUp())
      invariant handled == |Messages(lines[..i])|
      invariant server.State() == Run(server.SetUp(), Messages(lines[..i]))
      invariant output == Output(server.SetUp(), lines[..i])
    {
      MessagesOfMore(lines, i);
      OutputOfMore(server.SetUp(), lines, i);
      var line := ReadLine(raw[i], parse);
      var written := ServeLine(server, line, Messages(lines[..i]), handled);
      output := output + written;
      if line.Message? {
        handled := handled + 1;
      }
    }
    assert lines[..|raw|] == lines;
  }

  lemma RunOfMore(setup: Setup, messages: seq<Json>, message: Json)
    ensures Run(setup, messages + [message]) == Step(setup, Run(setup, messages), message, |messages|)
  {
    assert (messages + [message])[..|messages|] == messages;
  }

  // ---------------------------------------------------------------------------------------
  // The lifecycle, told from the messages alone.

  predicate Happened<T>(events: seq<T>, p: T -> bool) { exists i :: 0 <= i < |events| && p(events[i]) }

  /** An event of the second kind, with one of the first kind before it. */
  predicate HappenedThen<T>(events: seq<T>, p: T -> bool, q: T -> bool) {
    exists j :: 0 <= j < |events| && q(events[j]) && Happened(events[..j], p)
  }

  lemma HappenedGrows<T>(events: seq<T>, event: T, p: T -> bool)
    ensures Happened(events + [event], p) <==> Happened(events, p) || p(event)
  {
    var more := events + [event];
    assert more[|events|] == event;
    if Happened(events, p) {
      var i :| 0 <= i < |events| && p(events[i]);
      assert p(more[i]);
    }
  }

  lemma HappenedThenGrows<T>(events: seq<T>, event: T, p: T -> bool, q: T -> bool)
    ensures HappenedThen(events + [event], p, q) <==> HappenedThen(events, p, q) || (q(event) && Happened(events, p))
  {
    var more := events + [event];
    assert forall j :: 0 <= j <= |events| ==> more[..j] == events[..j];
    assert more[|events|] == event && events[..|events|] == events;
    if HappenedThen(events, p, q) {
      var j :| 0 <= j < |events| && q(events[j]) && Happened(events[..j], p);
      assert q(more[j]) && Happened(more[..j], p);
    }
    if HappenedThen(more, p, q) {
      var j :| 0 <= j < |more| && q(more[j]) && Happened(more[..j], p);
      assert j < |events| ==> q(events[j]) && Happened(events[..j], p);
    }
  }

  lemma ThenImpliesFirst<T>(events: seq<T>, p: T -> bool, q: T -> bool)
    ensures HappenedThen(events, p, q) ==> Happened(events, p)
  {
    if HappenedThen(events, p, q) {
      var j :| 0 <= j < |events| && q(events[j]) && Happened(events[..j], p);
      var i :| 0 <= i < j && p(events[..j][i]);
      assert p(events[i]);
    }
  }

  /** What a run depends on in each message: does it initialize, or confirm, which version, which call. */
  datatype Rules = Rules(initializes: Json -> bool, confirms: Json -> bool, version: Json -> string,
                         call: (nat, Json) -> Option<Invocation>)

  function Advance(rules: Rules, connection: Connection, message: Json, moment: nat): Connection {
    if connection.phase == New && rules.initializes(message) then
      connection.(phase := AwaitingInitialized, negotiated := Some(rules.version(message)))
    else if connection.phase == AwaitingInitialized && rules.confirms(message) then connection.(phase := Ready)
    else if connection.phase == Ready && rules.call(moment, message).Some? then
      connection.(runs := connection.runs + [rules.call(moment, message).value])
    else connection
  }

  function Progress(rules: Rules, messages: seq<Json>): Connection {
    if messages == [] then FRESH
    else
      var last := |messages| - 1;
      Advance(rules, Progress(rules, messages[..last]), messages[last], last)
  }

  lemma {:induction false} PhaseFollowsRules(rules: Rules, messages: seq<Json>)
    ensures var phase := Progress(rules, messages).phase;
            && (phase == New <==> !Happened(messages, rules.initializes))
            && (phase == Ready <==> HappenedThen(messages, rules.initializes, rules.confirms))
  {
    if messages != [] {
      var last := |messages| - 1;
      PhaseFollowsRules(rules, messages[..last]);
      assert messages == messages[..last] + [messages[last]];
      HappenedGrows(messages[..last], messages[last], rules.initializes);
      HappenedThenGrows(messages[..last], messages[last], rules.initializes, rules.confirms);
      ThenImpliesFirst(messages[..last], rules.initializes, rules.confirms);
    }
  }

  lemma HappenedSince<T>(events: seq<T>, p: T -> bool, i: nat, n: nat)
    requires i < n <= |events| && p(events[i])
    ensures Happened(events[..n], p)
  {
    assert events[..n][i] == events[i];
  }

  lemma {:induction false} VersionFollowsRules(rules: Rules, messages: seq<Json>, i: nat)
    requires i < |messages| && rules.initializes(messages[i]) && !Happened(messages[..i], rules.initializes)
    ensures Progress(rules, messages).negotiated == Some(rules.version(messages[i]))
  {
    var last := |messages| - 1;
    PhaseFollowsRules(rules, messages[..last]);
    if i < last {
      assert messages[..last][..i] == messages[..i];
      VersionFollowsRules(rules, messages[..last], i);
      HappenedSince(messages, rules.initializes, i, last);
    }
  }

  lemma {:induction false} NothingNegotiatedYet(rules: Rules, messages: seq<Json>)
    requires !Happened(messages, rules.initializes)
    ensures Progress(rules, messages).negotiated == None
  {
    if messages != [] {
      var last := |messages| - 1;
      assert messages == messages[..last] + [messages[last]];
      HappenedGrows(messages[..last], messages[last], rules.initializes);
      NothingNegotiatedYet(rules, messages[..last]);
    }
  }

  /** Message k makes this run happen: the lifecycle is complete before it, and it calls for the run. */
  predicate Causes(rules: Rules, messages: seq<Json>, k: nat, run: Invocation) {
    k < |messages| && HappenedThen(messages[..k], rules.initializes, rules.confirms) && rules.call(k, messages[k]) == Some(run)
  }

  lemma CausesEarlier(rules: Rules, messages: seq<Json>, k: nat, run: Invocation)
    requires k + 1 < |messages|
    ensures Causes(rules, messages[..|messages| - 1], k, run) <==> Causes(rules, messages, k, run)
  {
    assert messages[..|messages| - 1][..k] == messages[..k];
  }

  lemma {:induction false} RunsFollowRules(rules: Rules, messages: seq<Json>)
    ensures forall run :: run in Progress(rules, messages).runs <==> exists k: nat :: Causes(rules, messages, k, run)
  {
    if messages != [] {
      var last := |messages| - 1;
      var earlier := Progress(rules, messages[..last]).runs;
      RunsFollowRules(rules, messages[..last]);
      PhaseFollowsRules(rules, messages[..last]);
      forall run
        ensures run in Progress(rules, messages).runs <==> exists k: nat :: Causes(rules, messages, k, run)
      {
        if run in earlier {
          var k: nat :| Causes(rules, messages[..last], k, run);
          CausesEarlier(rules, messages, k, run);
        } else if run in Progress(rules, messages).runs {
          assert Causes(rules, messages, last, run);
        }
        if k: nat :| Causes(rules, messages, k, run) && k < last {
          CausesEarlier(rules, messages, k, run);
        }
      }
    }
  }

  /** In the order of their moments, no two at the same one, all before `n`. */
  predicate InOrderOfMoments(runs: seq<Invocation>, n: nat) {
    && (forall i, j :: 0 <= i < j < |runs| ==> runs[i].moment < runs[j].moment)
    && (forall i :: 0 <= i < |runs| ==> runs[i].moment < n)
  }

  ghost predicate CallsAreDated(rules: Rules) {
    forall k: nat, message: Json :: rules.call(k, message).Some? ==> rules.call(k, message).value.moment == k
  }

  /** Each message makes at most one handler run. */
  lemma {:induction false} RunsAreOrdered(rules: Rules, messages: seq<Json>)
    requires CallsAreDated(rules)
    ensures InOrderOfMoments(Progress(rules, messages).runs, |messages|)
  {
    if messages != [] {
      RunsAreOrdered(rules, messages[..|messages| - 1]);
    }
  }

  // ---------------------------------------------------------------------------------------
  // The server's rules.

  const INITIALIZES: Json -> bool := (message: Json) => Initializes(message)
  const CONFIRMS: Json -> bool := (message: Json) => Confirms(message)
  const VERSION: Json -> string := (message: Json) => if Initializes(message) then Negotiated(message) else []

  /** The run that a message at a moment asks for and may have. */
  function CallsOf(setup: Setup): (nat, Json) -> Option<Invocation> {
    (k: nat, message: Json) => if Runs(setup, message, k) then RunFor(message, k) else None
  }

  function RulesOf(setup: Setup): Rules { Rules(INITIALIZES, CONFIRMS, VERSION, CallsOf(setup)) }

  lemma StepFollowsRules(setup: Setup, connection: Connection, message: Json, moment: nat)
    ensures Step(setup, connection, message, moment) == Advance(RulesOf(setup), connection, message, moment)
  {
  }

  lemma {:induction false} RunFollowsRules(setup: Setup, messages: seq<Json>)
    ensures Run(setup, messages) == Progress(RulesOf(setup), messages)
  {
    if messages != [] {
      var last := |messages| - 1;
      RunFollowsRules(setup, messages[..last]);
      StepFollowsRules(setup, Run(setup, messages[..last]), messages[last], last);
    }
  }

  predicate Initialized(messages: seq<Json>) { Happened(messages, INITIALIZES) }

  /** An accepted initialize, and later an initialized message. */
  predicate Confirmed(messages: seq<Json>) { HappenedThen(messages, INITIALIZES, CONFIRMS) }

  /** The phase says exactly which of the two lifecycle messages have come, in order, with or without ids. */
  lemma PhaseTellsTheLifecycle(setup: Setup, messages: seq<Json>)
    ensures var phase := Run(setup, messages).phase;
            && (phase == New <==> !Initialized(messages))
            && (phase == Ready <==> Confirmed(messages))
  {
    RunFollowsRules(setup, messages);
    PhaseFollowsRules(RulesOf(setup), messages);
  }

  lemma SupportedVersion(message: Json)
    requires INITIALIZES(message)
    ensures VERSION(message) in SUPPORTED_PROTOCOL_VERSIONS
  {
  }

  /** The version is settled by the first accepted initialize, whatever follows, and is a supported one; none is before that. */
  lemma VersionIsNegotiatedOnce(setup: Setup, messages: seq<Json>)
    ensures !Initialized(messages) ==> Run(setup, messages).negotiated == None
    ensures forall i :: 0 <= i < |messages| && INITIALIZES(messages[i]) && !Initialized(messages[..i]) ==>
              Run(setup, messages).negotiated == Some(VERSION(messages[i])) && VERSION(messages[i]) in SUPPORTED_PROTOCOL_VERSIONS
  {
    var rules := RulesOf(setup);
    RunFollowsRules(setup, messages);
    if !Initialized(messages) {
      NothingNegotiatedYet(rules, messages);
    }
    forall i | 0 <= i < |messages| && INITIALIZES(messages[i]) && !Initialized(messages[..i])
      ensures Run(setup, messages).negotiated == Some(VERSION(messages[i])) && VERSION(messages[i]) in SUPPORTED_PROTOCOL_VERSIONS
    {
      VersionFollowsRules(rules, messages, i);
      SupportedVersion(messages[i]);
    }
  }

  // ---------------------------------------------------------------------------------------
  // Handlers run only when everything is in order.

  /** A handler has run exactly when some message, sent once the lifecycle was complete, called it and passed every check. */
  lemma HandlersRunExactlyWhenCalled(setup: Setup, messages: seq<Json>, run: Invocation)
    ensures run in Run(setup, messages).runs <==> exists k: nat :: Causes(RulesOf(setup), messages, k, run)
  {
    RunFollowsRules(setup, messages);
    RunsFollowRules(RulesOf(setup), messages);
  }

  lemma CallsAreChecked(setup: Setup, message: Json, k: nat, run: Invocation)
    requires CallsOf(setup)(k, message) == Some(run)
    ensures run.moment == k && IsMethod(message, "tools/call") && MayRun(setup.tools, setup.governance, setup.regex, run)
  {
  }

  /** An accepted initialize, then an initialized message, before the message at `k`. */
  predicate LifecycleBefore(rules: Rules, messages: seq<Json>, i: nat, j: nat, k: nat) {
    i < j < k < |messages| && rules.initializes(messages[i]) && rules.confirms(messages[j])
  }

  lemma CauseHasLifecycle(rules: Rules, messages: seq<Json>, k: nat, run: Invocation)
    requires Causes(rules, messages, k, run)
    ensures exists i, j :: LifecycleBefore(rules, messages, i, j, k)
  {
    var j :| 0 <= j < k && rules.confirms(messages[..k][j]) && Happened(messages[..k][..j], rules.initializes);
    var i :| 0 <= i < j && rules.initializes(messages[..k][..j][i]);
    assert LifecycleBefore(rules, messages, i, j, k);
  }

  /** No handler runs without an accepted initialize, a later initialized, and a later call that passes every check. */
  lemma EveryRunIsSafe(setup: Setup, messages: seq<Json>, run: Invocation)
    requires run in Run(setup, messages).runs
    ensures MayRun(setup.tools, setup.governance, setup.regex, run)
    ensures run.moment < |messages| && IsMethod(messages[run.moment], "tools/call")
    ensures exists i, j :: LifecycleBefore(RulesOf(setup), messages, i, j, run.moment)
  {
    HandlersRunExactlyWhenCalled(setup, messages, run);
    var k: nat :| Causes(RulesOf(setup), messages, k, run);
    CallsAreChecked(setup, messages[k], k, run);
    CauseHasLifecycle(RulesOf(setup), messages, k, run);
  }

  /** No message makes more than one handler run. */
  lemma {:induction false} OneRunForEachMessage(setup: Setup, messages: seq<Json>)
    ensures InOrderOfMoments(Run(setup, messages).runs, |messages|)
  {
    RunFollowsRules(setup, messages);
    assert CallsAreDated(RulesOf(setup)) by {
      forall k: nat, message: Json | RulesOf(setup).call(k, message).Some?
        ensures RulesOf(setup).call(k, message).value.moment == k
      {
        CallsAreChecked(setup, message, k, CallsOf(setup)(k, message).value);
      }
    }
    RunsAreOrdered(RulesOf(setup), messages);
  }

  // ---------------------------------------------------------------------------------------
  // Every message with an id gets one response, echoing it; a notification gets none.

  /** The ids that the lines call for, in order; a line that does not parse is answered under the null id. */
  function Owed(lines: seq<Line>): seq<Json> {
    if lines == [] then []
    else
      var line := lines[|lines| - 1];
      Owed(lines[..|lines| - 1])
      + match line
        case Blank => []
        case Garbled => [JNull]
        case Message(message) => if IsNotification(message) then [] else [IdOf(message)]
  }

  lemma {:induction false} ResponsesEchoTheIds(setup: Setup, lines: seq<Line>)
    requires ValidSetup(setup)
    ensures var output := Output(setup, lines);
            |output| == |Owed(lines)| && forall i :: 0 <= i < |output| ==> output[i].id == Owed(lines)[i]
  {
    if lines != [] {
      ResponsesEchoTheIds(setup, lines[..|lines| - 1]);
    }
  }
}
