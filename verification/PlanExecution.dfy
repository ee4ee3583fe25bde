/**
 The step engine and the two coordinators, on plan steps whose status and result are written in
 place. A retrieval batch runs its steps in an arbitrary completion order.
 */
module PlanExecution {
  import opened Wrappers
  import opened PlanSemantics

  const MAX_RETRIEVAL_WORKERS := 4

  class PlanStep {
    const spec: StepSpec
    var status: StepStatus
    var result: Option<ExecutionResult>

    constructor (spec: StepSpec)
      ensures this.spec == spec && status == PENDING && result == None
    {
      this.spec, status, result := spec, StepStatus.PENDING, None;
    }
  }

  function Specs(steps: seq<PlanStep>): (specs: seq<StepSpec>)
    ensures |specs| == |steps| && forall k :: 0 <= k < |steps| ==> specs[k] == steps[k].spec
  {
    seq(|steps|, k requires 0 <= k < |steps| => steps[k].spec)
  }

  /** Same filters as Ready, Blocked and OfKind, on the step objects. */
  function Select(steps: seq<PlanStep>, completed: map<StepId, Output>, ready: bool): seq<PlanStep> {
    if steps == [] then []
    else if DependenciesMet(steps[0].spec, completed) == ready
      then [steps[0]] + Select(steps[1..], completed, ready)
    else Select(steps[1..], completed, ready)
  }

  function SelectKind(steps: seq<PlanStep>, retrieval: bool): seq<PlanStep> {
    if steps == [] then []
    else if steps[0].spec.stepType.RETRIEVE? == retrieval then [steps[0]] + SelectKind(steps[1..], retrieval)
    else SelectKind(steps[1..], retrieval)
  }

  lemma SpecsOfCons(s: PlanStep, rest: seq<PlanStep>)
    ensures Specs([s] + rest) == [s.spec] + Specs(rest)
  {
  }

  lemma {:induction false} SelectIsFilter(steps: seq<PlanStep>, completed: map<StepId, Output>, ready: bool)
    ensures Specs(Select(steps, completed, ready))
         == if ready then Ready(Specs(steps), completed) else Blocked(Specs(steps), completed)
    ensures forall s :: s in Select(steps, completed, ready) <==> s in steps && DependenciesMet(s.spec, completed) == ready
  {
    if steps != [] {
      SelectIsFilter(steps[1..], completed, ready);
      assert steps == [steps[0]] + steps[1..];
      SpecsOfCons(steps[0], steps[1..]);
      SpecsOfCons(steps[0], Select(steps[1..], completed, ready));
    }
  }

  predicate PartOf(some: seq<PlanStep>, steps: seq<PlanStep>) {
    forall k :: 0 <= k < |some| ==> some[k] in steps
  }

  lemma {:induction false} SelectCounts(steps: seq<PlanStep>, completed: map<StepId, Output>)
    ensures |Select(steps, completed, true)| + |Select(steps, completed, false)| == |steps|
  {
    if steps != [] {
      SelectCounts(steps[1..], completed);
    }
  }

  lemma EarlierStepsDiffer(steps: seq<PlanStep>, i: nat)
    requires UniqueIds(Specs(steps)) && i < |steps|
    ensures forall k :: 0 <= k < i ==> steps[k] != steps[i]
  {
    assert forall k :: 0 <= k < i ==> Specs(steps)[k].id != Specs(steps)[i].id;
  }

  lemma SpecFindsStep(steps: seq<PlanStep>, some: seq<PlanStep>, s: PlanStep)
    requires UniqueIds(Specs(steps)) && s in steps && PartOf(some, steps)
    ensures s.spec in Specs(steps) && (s.spec in Specs(some) ==> s in some)
  {
    SpecsCover(steps);
    SpecsCover(some);
    if s.spec in Specs(some) {
      var r :| r in some && r.spec == s.spec;
      if r != s {
        DifferentStepsDifferentIds(steps, s, r);
      }
    }
  }

  lemma {:induction false} SelectKindIsFilter(steps: seq<PlanStep>, retrieval: bool)
    ensures Specs(SelectKind(steps, retrieval)) == OfKind(Specs(steps), retrieval)
    ensures forall s :: s in SelectKind(steps, retrieval) <==> s in steps && s.spec.stepType.RETRIEVE? == retrieval
  {
    if steps != [] {
      SelectKindIsFilter(steps[1..], retrieval);
      assert steps == [steps[0]] + steps[1..];
      SpecsOfCons(steps[0], steps[1..]);
      SpecsOfCons(steps[0], SelectKind(steps[1..], retrieval));
    }
  }

  /** The step records how it ended. */
  predicate EndedAs(step: PlanStep, end: StepEnd)
    reads step
  {
    step.status == StatusOf(end) && step.result == Some(ResultOf(step.spec.id, end))
  }

  datatype ExecutionOutput = ExecutionOutput(evidences: seq<Evidence>, executionResults: seq<ExecutionResult>)

  class Coordinator {
    const engine: Engine
    var calls: seq<Call>  // the handler calls made so far

    constructor (engine: Engine)
      ensures this.engine == engine && calls == []
    {
      this.engine, calls := engine, [];
    }

    /** Run one step against a dependency snapshot; its handler is called only if its dependencies are met. */
    method ExecuteStep(step: PlanStep, completed: map<StepId, Output>) returns (end: StepEnd)
      modifies step, this`calls
      ensures end == Attempt(engine, step.spec, completed) && EndedAs(step, end)
      ensures step.status == SKIPPED <==> exists d :: d in step.spec.dependsOn && d !in completed
      ensures step.status == COMPLETED ==> step.result.value.success && step.result.value.output == Some(end.output)
      ensures CalledOnce(old(calls), calls, engine, step.spec, end, completed)
    {
      var id := step.spec.id;
      if !DependenciesMet(step.spec, completed) {
        step.status := SKIPPED;
        step.result := Some(ExecutionResult(id, false, None, Some("Dependencies not met")));
        return Skipped;
      }
      step.status := RUNNING;
      if step.spec.stepType !in engine.handlers {
        step.status := StepStatus.FAILED;
        step.result := Some(ExecutionResult(id, false, None, Some("No handler registered")));
        return Unhandled;
      }
      var call := Call(step.spec, DeclaredResults(step.spec, completed));
      calls := calls + [call];
      match engine.handlers[step.spec.stepType](call.spec, call.results) {
        case Returns(output, evidence) =>
          step.status := COMPLETED;
          step.result := Some(ExecutionResult(id, true, Some(output), None));
          end := Done(output, evidence);
        case Raises(error) =>
          step.status := StepStatus.FAILED;
          step.result := Some(ExecutionResult(id, false, None, Some(error)));
          end := Failed(error);
      }
    }

    static method CollectResults(steps: seq<PlanStep>) returns (results: seq<ExecutionResult>)
      requires forall s :: s in steps ==> s.result.Some?
      ensures |results| == |steps| && forall k :: 0 <= k < |steps| ==> steps[k].result == Some(results[k])
    {
      results := [];
      for i := 0 to |steps|
        invariant |results| == i && forall k :: 0 <= k < i ==> steps[k].result == Some(results[k])
      {
        results := results + [steps[i].result.value];
      }
    }

    /** Run one step and merge what it contributed. */
    method Advance(step: PlanStep, before: map<StepId, Output>, gathered: seq<Evidence>)
      returns (completed: map<StepId, Output>, evidence: seq<Evidence>)
      modifies this`calls, step
      ensures var end := Attempt(engine, step.spec, before);
              && EndedAs(step, end)
              && completed == Record(before, step.spec.id, end) && evidence == gathered + EvidenceOf(end)
              && CalledOnce(old(calls), calls, engine, step.spec, end, before)
    {
      var end := ExecuteStep(step, before);
      completed, evidence := before, gathered;
      if end.Done? {
        completed := completed[step.spec.id := end.output];
        evidence := evidence + end.evidence;
      }
    }

    /** The first `n` steps have ended as in order. */
    ghost predicate EndedInOrder(steps: seq<PlanStep>, n: nat)
      requires n <= |steps|
      reads steps
    {
      forall k :: 0 <= k < n ==>
        EndedAs(steps[k], Attempt(engine, steps[k].spec, InOrder(engine, Specs(steps)[..k], map[]).completed))
    }

    /** The next step in plan order, against everything completed before it. */
    method RunInPlanOrder(steps: seq<PlanStep>, i: nat, before: map<StepId, Output>, evidence0: seq<Evidence>, ghost first: seq<Call>)
      returns (completed: map<StepId, Output>, evidence: seq<Evidence>)
      requires UniqueIds(Specs(steps)) && i < |steps| && EndedInOrder(steps, i)
      requires Progress(before, evidence0) == InOrder(engine, Specs(steps)[..i], map[])
      requires Ids(calls) == Ids(first) + CalledInOrder(engine, Specs(steps)[..i]) && CalledWith(first, calls, Specs(steps), before)
      modifies this`calls, steps[i]
      ensures EndedInOrder(steps, i + 1)
      ensures Progress(completed, evidence) == InOrder(engine, Specs(steps)[..i + 1], map[])
      ensures Ids(calls) == Ids(first) + CalledInOrder(engine, Specs(steps)[..i + 1]) && CalledWith(first, calls, Specs(steps), completed)
    {
      InOrderNext(engine, Specs(steps), i, map[]);
      EarlierStepsDiffer(steps, i);
      ghost var sofar := calls;
      completed, evidence := Advance(steps[i], before, evidence0);
      CalledNextInOrder(first, sofar, calls, engine, Specs(steps), i, before);
    }

    method ExecuteSequential(steps: seq<PlanStep>) returns (out: ExecutionOutput, completed: map<StepId, Output>)
      requires UniqueIds(Specs(steps))
      modifies this`calls, steps
      ensures Progress(completed, out.evidences) == InOrder(engine, Specs(steps), map[])
      ensures Ids(calls) == Ids(old(calls)) + CalledInOrder(engine, Specs(steps))
      ensures CalledWith(old(calls), calls, Specs(steps), completed)
      ensures EndedInOrder(steps, |steps|)
      ensures |out.executionResults| == |steps|
              && forall k :: 0 <= k < |steps| ==> steps[k].result == Some(out.executionResults[k])
    {
      completed := map[];
      var evidence := [];
      for i := 0 to |steps|
        invariant Progress(completed, evidence) == InOrder(engine, Specs(steps)[..i], map[])
        invariant EndedInOrder(steps, i)
        invariant Ids(calls) == Ids(old(calls)) + CalledInOrder(engine, Specs(steps)[..i])
        invariant CalledWith(old(calls), calls, Specs(steps), completed)
      {
        completed, evidence := RunInPlanOrder(steps, i, completed, evidence, old(calls));
      }
      assert Specs(steps)[..|steps|] == Specs(steps);
      var results := CollectResults(steps);
      out := ExecutionOutput(evidence, results);
    }

    /** The first `n` steps have ended as against this snapshot. */
    ghost predicate EndedAgainst(steps: seq<PlanStep>, n: nat, snapshot: map<StepId, Output>)
      requires n <= |steps|
      reads steps
    {
      forall k :: 0 <= k < n ==> EndedAs(steps[k], Attempt(engine, steps[k].spec, snapshot))
    }

    /** One more step of a wave on the caller's thread. */
    method RunNext(steps: seq<PlanStep>, i: nat, ghost start: map<StepId, Output>, ghost gathered: seq<Evidence>,
                   before: map<StepId, Output>, evidence0: seq<Evidence>, ghost had: seq<Call>)
      returns (completed: map<StepId, Output>, evidence: seq<Evidence>)
      requires FreshWave(Specs(steps), start) && i < |steps| && EndedAgainst(steps, i, start)
      requires Progress(before, evidence0) == After(engine, Specs(steps)[..i], start, gathered)
      requires CallsGrewBy(had, calls, CalledIds(engine, Specs(steps)[..i], start)) && CalledWith(had, calls, Specs(steps), before)
      modifies this`calls, steps[i]
      ensures EndedAgainst(steps, i + 1, start)
      ensures Progress(completed, evidence) == After(engine, Specs(steps)[..i + 1], start, gathered)
      ensures CallsGrewBy(had, calls, CalledIds(engine, Specs(steps)[..i + 1], start)) && CalledWith(had, calls, Specs(steps), completed)
    {
      WavePrefix(engine, Specs(steps), i, start, gathered);
      NotYetDone(engine, Specs(steps), i, start);
      EarlierStepsDiffer(steps, i);
      ghost var sofar := calls;
      completed, evidence := Advance(steps[i], before, evidence0);
      AddCall(had, sofar, calls, engine, Specs(steps), i, start, before);
      CalledOnceMore(had, sofar, calls, engine, Specs(steps), i, Attempt(engine, steps[i].spec, start), before);
    }

    /** Ready steps one after the other on the caller's thread. */
    method RunInTurn(steps: seq<PlanStep>, before: map<StepId, Output>, gathered: seq<Evidence>)
      returns (completed: map<StepId, Output>, evidence: seq<Evidence>)
      requires FreshWave(Specs(steps), before)
      modifies this`calls, steps
      ensures Progress(completed, evidence) == After(engine, Specs(steps), before, gathered)
      ensures forall s :: s in steps ==> EndedAs(s, Attempt(engine, s.spec, before))
      ensures CallsGrewBy(old(calls), calls, CalledIds(engine, Specs(steps), before))
      ensures CalledWith(old(calls), calls, Specs(steps), completed) && Submap(before, completed)
    {
      InOrderGrows(engine, Specs(steps), before);
      completed, evidence := before, gathered;
      for i := 0 to |steps|
        invariant Progress(completed, evidence) == After(engine, Specs(steps)[..i], before, gathered)
        invariant EndedAgainst(steps, i, before)
        invariant CallsGrewBy(old(calls), calls, CalledIds(engine, Specs(steps)[..i], before))
        invariant CalledWith(old(calls), calls, Specs(steps), completed)
      {
        completed, evidence := RunNext(steps, i, before, gathered, completed, evidence, old(calls));
      }
      assert Specs(steps)[..|steps|] == Specs(steps);
    }

    /** One step of the batch, recorded with the others. */
    method RunIsolated(queue: seq<PlanStep>, i: nat, snapshot: map<StepId, Output>, before: map<StepId, StepEnd>, ghost had: seq<Call>)
      returns (outcomes: map<StepId, StepEnd>)
      requires UniqueIds(Specs(queue)) && i < |queue| && EndedAgainst(queue, i, snapshot)
      requires before == Outcomes(engine, Specs(queue)[..i], snapshot)
      requires CallsGrewBy(had, calls, CalledIds(engine, Specs(queue)[..i], snapshot)) && CalledWith(had, calls, Specs(queue), snapshot)
      modifies this`calls, queue[i]
      ensures EndedAgainst(queue, i + 1, snapshot)
      ensures outcomes == Outcomes(engine, Specs(queue)[..i + 1], snapshot)
      ensures CallsGrewBy(had, calls, CalledIds(engine, Specs(queue)[..i + 1], snapshot)) && CalledWith(had, calls, Specs(queue), snapshot)
    {
      OutcomesNext(engine, Specs(queue), i, snapshot);
      EarlierStepsDiffer(queue, i);
      ghost var sofar := calls;
      var end := ExecuteStep(queue[i], snapshot);
      AddCall(had, sofar, calls, engine, Specs(queue), i, snapshot, snapshot);
      CalledAgain(had, sofar, calls, engine, Specs(queue), i, end, snapshot);
      outcomes := before[queue[i].spec.id := end];
    }

    /** The steps run against the snapshot in the order in which the pool gets to them. */
    method RunPool(queue: seq<PlanStep>, snapshot: map<StepId, Output>) returns (outcomes: map<StepId, StepEnd>)
      requires UniqueIds(Specs(queue))
      modifies this`calls, queue
      ensures outcomes == Outcomes(engine, Specs(queue), snapshot)
      ensures forall k :: 0 <= k < |queue| ==> EndedAs(queue[k], Attempt(engine, queue[k].spec, snapshot))
      ensures CallsGrewBy(old(calls), calls, CalledIds(engine, Specs(queue), snapshot))
      ensures CalledWith(old(calls), calls, Specs(queue), snapshot)
    {
      outcomes := map[];
      for i := 0 to |queue|
        invariant outcomes == Outcomes(engine, Specs(queue)[..i], snapshot)
        invariant EndedAgainst(queue, i, snapshot)
        invariant CallsGrewBy(old(calls), calls, CalledIds(engine, Specs(queue)[..i], snapshot))
        invariant CalledWith(old(calls), calls, Specs(queue), snapshot)
      {
        outcomes := RunIsolated(queue, i, snapshot, outcomes, old(calls));
      }
      assert Specs(queue)[..|queue|] == Specs(queue);
    }

    /** Every step of the batch runs against the same snapshot, in an order nobody controls. */
    method ExecuteRetrievalBatch(steps: seq<PlanStep>, snapshot: map<StepId, Output>) returns (outcomes: map<StepId, StepEnd>)
      requires FreshWave(Specs(steps), snapshot)
      modifies this`calls, steps
      ensures forall s :: s in steps ==> s.spec.id in outcomes && outcomes[s.spec.id] == Attempt(engine, s.spec, snapshot)
      ensures forall s :: s in steps ==> EndedAs(s, Attempt(engine, s.spec, snapshot))
      ensures CallsGrewBy(old(calls), calls, CalledIds(engine, Specs(steps), snapshot))
      ensures CalledWith(old(calls), calls, Specs(steps), snapshot)
    {
      var queue :| multiset(queue) == multiset(steps);
      QueueHoldsBatch(steps, queue);
      OutcomesLookup(engine, Specs(queue), snapshot);
      SpecsCover(steps);
      outcomes := RunPool(queue, snapshot);
      SameStepsSameCalls(engine, Specs(queue), Specs(steps), snapshot);
    }

    /** The batch's outcomes are merged in plan order, whatever order they arrived in. */
    method MergeOutcomes(steps: seq<PlanStep>, outcomes: map<StepId, StepEnd>, snapshot: map<StepId, Output>, gathered: seq<Evidence>)
      returns (completed: map<StepId, Output>, evidence: seq<Evidence>)
      requires FreshWave(Specs(steps), snapshot)
      requires forall s :: s in steps ==> s.spec.id in outcomes && outcomes[s.spec.id] == Attempt(engine, s.spec, snapshot)
      ensures Progress(completed, evidence) == After(engine, Specs(steps), snapshot, gathered)
    {
      completed, evidence := snapshot, gathered;
      for i := 0 to |steps|
        invariant Progress(completed, evidence) == After(engine, Specs(steps)[..i], snapshot, gathered)
      {
        WavePrefix(engine, Specs(steps), i, snapshot, gathered);
        var end := outcomes[steps[i].spec.id];
        if end.Done? {
          completed := completed[steps[i].spec.id := end.output];
          evidence := evidence + end.evidence;
        }
      }
      assert Specs(steps)[..|steps|] == Specs(steps);
    }

    /** Two or more retrievals go to the pool when there is one; otherwise they run in turn. */
    method RunRetrievals(steps: seq<PlanStep>, before: map<StepId, Output>, gathered: seq<Evidence>, maxWorkers: int)
      returns (completed: map<StepId, Output>, evidence: seq<Evidence>)
      requires FreshWave(Specs(steps), before)
      modifies this`calls, steps
      ensures Progress(completed, evidence) == After(engine, Specs(steps), before, gathered)
      ensures forall s :: s in steps ==> EndedAs(s, Attempt(engine, s.spec, before))
      ensures CallsGrewBy(old(calls), calls, CalledIds(engine, Specs(steps), before))
      ensures CalledWith(old(calls), calls, Specs(steps), completed)
    {
      if |steps| > 1 && maxWorkers > 1 {
        var outcomes := ExecuteRetrievalBatch(steps, before);
        completed, evidence := MergeOutcomes(steps, outcomes, before, gathered);
        InOrderGrows(engine, Specs(steps), before);
        CalledWithMore(old(calls), calls, Specs(steps), before, Specs(steps), completed);
      } else {
        completed, evidence := RunInTurn(steps, before, gathered);
      }
    }

    /** One wave: its retrievals, then its other steps. */
    method RunWave(ready: seq<PlanStep>, before: map<StepId, Output>, gathered: seq<Evidence>, maxWorkers: int)
      returns (completed: map<StepId, Output>, evidence: seq<Evidence>)
      requires FreshWave(Specs(ready), before)
      modifies this`calls, ready
      ensures Progress(completed, evidence) == After(engine, WaveOrder(Specs(ready)), before, gathered)
      ensures forall s :: s in ready ==> EndedAs(s, Attempt(engine, s.spec, before))
      ensures CallsGrewBy(old(calls), calls, CalledIds(engine, Specs(ready), before))
      ensures CalledWith(old(calls), calls, Specs(ready), completed)
    {
      var retrievals, others := SelectKind(ready, true), SelectKind(ready, false);
      SelectKindIsFilter(ready, true);
      SelectKindIsFilter(ready, false);
      WaveInTwo(engine, Specs(ready), before, gathered);
      completed, evidence := RunRetrievals(retrievals, before, gathered, maxWorkers);
      ghost var middle := completed;
      ghost var had := calls;
      WaveCalls(engine, Specs(ready), before, middle);
      SpecsCover(ready);
      forall s | s in others
        ensures Attempt(engine, s.spec, middle) == Attempt(engine, s.spec, before)
      {
        AttemptIsStable(engine, s.spec, before, middle);
      }
      completed, evidence := RunInTurn(others, completed, evidence);
      CallsAddUp(old(calls), had, calls, CalledIds(engine, Specs(retrievals), before), CalledIds(engine, Specs(others), middle));
      CalledWithBoth(old(calls), had, calls, Specs(retrievals), middle, Specs(others), Specs(ready), completed);
    }

    method ExecuteParallelRetrievals(steps: seq<PlanStep>, parallelism: int)
      returns (out: ExecutionOutput, completed: map<StepId, Output>)
      requires UniqueIds(Specs(steps))
      modifies this`calls, steps
      ensures Progress(completed, out.evidences) == InWaves(engine, Specs(steps), map[])
      ensures forall s :: s in steps ==> EndedAs(s, Attempt(engine, s.spec, completed))
      ensures CallsGrewBy(old(calls), calls, CalledIds(engine, Specs(steps), completed))
      ensures CalledWith(old(calls), calls, Specs(steps), completed)
      ensures |out.executionResults| == |steps|
              && forall k :: 0 <= k < |steps| ==> steps[k].result == Some(out.executionResults[k])
    {
      ghost var plan := Specs(steps);
      var pending := steps;
      var evidence := [];
      completed := map[];
      var maxWorkers := if parallelism < 1 then 1 else if parallelism < MAX_RETRIEVAL_WORKERS then parallelism else MAX_RETRIEVAL_WORKERS;
      while pending != []
        invariant Scheduled(engine, plan, Specs(pending), completed)
        invariant InWaves(engine, plan, map[]) == FinishFrom(engine, Specs(pending), completed, evidence)
        invariant PartOf(pending, steps)
        invariant forall s :: s in steps && s !in pending ==> EndedAs(s, Attempt(engine, s.spec, completed))
        invariant CallsGrewBy(old(calls), calls, CalledSoFar(engine, plan, Specs(pending), completed))
        invariant CalledWith(old(calls), calls, plan, completed)
        decreases |pending|
      {
        if Select(pending, completed, true) == [] {
          SelectIsFilter(pending, completed, true);
          SkipAll(pending, completed);
          break;
        }
        PartOfSelection(steps, pending, completed, false);
        pending, completed, evidence := NextWave(steps, pending, completed, evidence, maxWorkers, old(calls));
      }
      SelectIsFilter(pending, completed, true);
      NothingReady(engine, plan, Specs(pending), completed);
      SpecsCover(steps);
      SpecsCover(pending);
      var results := CollectResults(steps);
      out := ExecutionOutput(evidence, results);
    }

    /** One turn of the loop: run what is ready, keep the rest pending. */
    method NextWave(ghost steps: seq<PlanStep>, pending: seq<PlanStep>, before: map<StepId, Output>, gathered: seq<Evidence>,
                    maxWorkers: int, ghost first: seq<Call>)
      returns (rest: seq<PlanStep>, completed: map<StepId, Output>, evidence: seq<Evidence>)
      requires Select(pending, before, true) != []
      requires UniqueIds(Specs(steps)) && Scheduled(engine, Specs(steps), Specs(pending), before)
      requires PartOf(pending, steps)
      requires forall s :: s in steps && s !in pending ==> EndedAs(s, Attempt(engine, s.spec, before))
      requires CallsGrewBy(first, calls, CalledSoFar(engine, Specs(steps), Specs(pending), before))
      requires CalledWith(first, calls, Specs(steps), before)
      modifies this`calls, pending
      ensures |rest| < |pending| && rest == Select(pending, before, false)
      ensures Scheduled(engine, Specs(steps), Specs(rest), completed)
      ensures FinishFrom(engine, Specs(rest), completed, evidence) == FinishFrom(engine, Specs(pending), before, gathered)
      ensures forall s :: s in steps && s !in rest ==> EndedAs(s, Attempt(engine, s.spec, completed))
      ensures CallsGrewBy(first, calls, CalledSoFar(engine, Specs(steps), Specs(rest), completed))
      ensures CalledWith(first, calls, Specs(steps), completed)
    {
      var ready := Select(pending, before, true);
      rest := Select(pending, before, false);
      assert Specs(ready) == Ready(Specs(pending), before) && Specs(rest) == Blocked(Specs(pending), before) by {
        SelectIsFilter(pending, before, true);
        SelectIsFilter(pending, before, false);
      }
      PartOfSelection(pending, pending, before, true);
      SelectCounts(pending, before);
      WaveOfLoop(engine, Specs(steps), Specs(pending), before, gathered);
      ghost var had := calls;
      completed, evidence := RunWave(ready, before, gathered, maxWorkers);
      WaveIsAccounted(first, had, calls, engine, Specs(steps), Specs(pending), before, completed);
      WaveKeepsEnds(engine, steps, pending, before);
    }

    /** Blocked steps are run through the engine too, which records them as skipped. */
    method SkipAll(pending: seq<PlanStep>, completed: map<StepId, Output>)
      requires forall s :: s in pending ==> !DependenciesMet(s.spec, completed)
      modifies this`calls, pending
      ensures forall s :: s in pending ==> EndedAs(s, Skipped)
      ensures calls == old(calls)
    {
      for i := 0 to |pending|
        invariant forall k :: 0 <= k < i ==> EndedAs(pending[k], Skipped)
        invariant calls == old(calls)
      {
        var _ := ExecuteStep(pending[i], completed);
      }
    }
  }

  /** Steps that may run now: dependencies met, not done. */
  predicate FreshWave(specs: seq<StepSpec>, m: map<StepId, Output>) {
    UniqueIds(specs) && NoneDone(specs, m) && forall x :: x in specs ==> DependenciesMet(x, m)
  }

  function After(engine: Engine, specs: seq<StepSpec>, m: map<StepId, Output>, gathered: seq<Evidence>): Progress {
    Progress(InOrder(engine, specs, m).completed, gathered + InOrder(engine, specs, m).evidence)
  }

  function Ids(calls: seq<Call>): (ids: seq<StepId>)
    ensures |ids| == |calls| && forall k :: 0 <= k < |calls| ==> ids[k] == calls[k].spec.id
  {
    seq(|calls|, k requires 0 <= k < |calls| => calls[k].spec.id)
  }

  /** The steps whose handlers run when the steps are taken in order. */
  function CalledInOrder(engine: Engine, specs: seq<StepSpec>): seq<StepId> {
    if specs == [] then []
    else
      var last := |specs| - 1;
      var end := Attempt(engine, specs[last], InOrder(engine, specs[..last], map[]).completed);
      CalledInOrder(engine, specs[..last]) + if Invoked(end) then [specs[last].id] else []
  }

  /** The account of one more step in order. */
  lemma CalledNextInOrder(first: seq<Call>, had: seq<Call>, calls: seq<Call>, engine: Engine, specs: seq<StepSpec>, i: nat,
                          m: map<StepId, Output>)
    requires i < |specs| && UniqueIds(specs) && m == InOrder(engine, specs[..i], map[]).completed
    requires CalledOnce(had, calls, engine, specs[i], Attempt(engine, specs[i], m), m)
    requires Ids(had) == Ids(first) + CalledInOrder(engine, specs[..i]) && CalledWith(first, had, specs, m)
    ensures Ids(calls) == Ids(first) + CalledInOrder(engine, specs[..i + 1])
    ensures CalledWith(first, calls, specs, Record(m, specs[i].id, Attempt(engine, specs[i], m)))
  {
    var end := Attempt(engine, specs[i], m);
    var own := if Invoked(end) then [specs[i].id] else [];
    assert specs[..i + 1][..i] == specs[..i];
    assert CalledInOrder(engine, specs[..i + 1]) == CalledInOrder(engine, specs[..i]) + own;
    assert Ids(calls) == Ids(had) + own;
    NotYetDone(engine, specs, i, map[]);
    CalledOnceMore(first, had, calls, engine, specs, i, end, m);
  }

  /** One more call for each of the ids, and no other. */
  predicate CallsGrewBy(had: seq<Call>, calls: seq<Call>, added: set<StepId>) {
    multiset(Ids(calls)) == multiset(Ids(had)) + multiset(added)
  }

  /** Each new call is for one of the steps, and was given the results of its declared dependencies. */
  ghost predicate CalledWith(had: seq<Call>, calls: seq<Call>, specs: seq<StepSpec>, m: map<StepId, Output>) {
    && had <= calls
    && forall k :: |had| <= k < |calls| ==> calls[k].spec in specs && HandedOver(calls[k], m)
  }

  /** The handler was called if at all once, with the results of the declared dependencies, and the step ended as it returned. */
  ghost predicate CalledOnce(had: seq<Call>, calls: seq<Call>, engine: Engine, spec: StepSpec, end: StepEnd, m: map<StepId, Output>) {
    if Invoked(end) then
      && |calls| == |had| + 1 && had <= calls
      && var call := calls[|had|];
         && call.spec == spec && HandedOver(call, m)
         && spec.stepType in engine.handlers && end == EndOfCall(engine.handlers[spec.stepType](call.spec, call.results))
    else calls == had
  }

  /** More steps and more results. */
  lemma CalledWithMore(had: seq<Call>, calls: seq<Call>, specs: seq<StepSpec>, m: map<StepId, Output>, more: seq<StepSpec>, m': map<StepId, Output>)
    requires CalledWith(had, calls, specs, m) && Submap(m, m') && forall x :: x in specs ==> x in more
    ensures CalledWith(had, calls, more, m')
  {
    forall k | |had| <= k < |calls|
      ensures calls[k].spec in more && HandedOver(calls[k], m')
    {
      HandedOverStays(calls[k], m, m');
    }
  }

  lemma CalledWithBoth(first: seq<Call>, second: seq<Call>, third: seq<Call>, a: seq<StepSpec>, m: map<StepId, Output>,
                       b: seq<StepSpec>, all: seq<StepSpec>, m': map<StepId, Output>)
    requires CalledWith(first, second, a, m) && CalledWith(second, third, b, m') && Submap(m, m')
    requires forall x :: x in a || x in b ==> x in all
    ensures CalledWith(first, third, all, m')
  {
    CalledWithMore(first, second, a, m, all, m');
    forall k | |first| <= k < |third|
      ensures third[k].spec in all && HandedOver(third[k], m')
    {
      assert k < |second| ==> third[k] == second[k];
    }
  }

  /** One more step of some, against the results so far. */
  lemma CalledAgain(first: seq<Call>, had: seq<Call>, calls: seq<Call>, engine: Engine, specs: seq<StepSpec>, i: nat, end: StepEnd,
                    m: map<StepId, Output>)
    requires CalledWith(first, had, specs, m) && i < |specs| && CalledOnce(had, calls, engine, specs[i], end, m)
    ensures CalledWith(first, calls, specs, m)
  {
    forall k | |first| <= k < |calls|
      ensures calls[k].spec in specs && HandedOver(calls[k], m)
    {
      assert k < |had| ==> calls[k] == had[k];
    }
  }

  /** The same, with the results the step may add. */
  lemma CalledOnceMore(first: seq<Call>, had: seq<Call>, calls: seq<Call>, engine: Engine, specs: seq<StepSpec>, i: nat, end: StepEnd,
                       m: map<StepId, Output>)
    requires CalledWith(first, had, specs, m) && i < |specs| && CalledOnce(had, calls, engine, specs[i], end, m)
    requires specs[i].id !in m
    ensures CalledWith(first, calls, specs, Record(m, specs[i].id, end))
  {
    CalledAgain(first, had, calls, engine, specs, i, end, m);
    CalledWithMore(first, calls, specs, m, specs, Record(m, specs[i].id, end));
  }

  /** A step's own id is not among the results before it runs. */
  lemma NotYetDone(engine: Engine, specs: seq<StepSpec>, i: nat, m: map<StepId, Output>)
    requires UniqueIds(specs) && NoneDone(specs, m) && i < |specs|
    ensures specs[i].id !in InOrder(engine, specs[..i], m).completed
  {
    InOrderGrows(engine, specs[..i], m);
    assert specs[i] in specs;
  }

  /** The scheduler's loop invariant, on the plan's specifications. */
  ghost predicate Scheduled(engine: Engine, plan: seq<StepSpec>, pending: seq<StepSpec>, m: map<StepId, Output>) {
    && UniqueIds(pending) && NoneDone(pending, m) && (forall x :: x in pending ==> x in plan)
    && Forced(engine, plan, m) && AllSettled(engine, plan, pending, m)
  }

  function FinishFrom(engine: Engine, pending: seq<StepSpec>, m: map<StepId, Output>, gathered: seq<Evidence>): Progress {
    Progress(InWaves(engine, pending, m).completed, gathered + InWaves(engine, pending, m).evidence)
  }

  /** The handlers called once everything but the pending steps has run. */
  function CalledSoFar(engine: Engine, plan: seq<StepSpec>, pending: seq<StepSpec>, m: map<StepId, Output>): set<StepId> {
    set x | x in plan && x !in pending && Invoked(Attempt(engine, x, m)) :: x.id
  }

  lemma WaveOfLoop(engine: Engine, plan: seq<StepSpec>, pending: seq<StepSpec>, m: map<StepId, Output>, gathered: seq<Evidence>)
    requires Scheduled(engine, plan, pending, m) && Ready(pending, m) != []
    ensures FreshWave(Ready(pending, m), m)
    ensures var after := After(engine, WaveOrder(Ready(pending, m)), m, gathered);
            && Submap(m, after.completed)
            && Scheduled(engine, plan, Blocked(pending, m), after.completed)
            && FinishFrom(engine, Blocked(pending, m), after.completed, after.evidence) == FinishFrom(engine, pending, m, gathered)
  {
    SplitIsUnique(pending, m);
    WaveStep(engine, plan, pending, m);
    var wave := InOrder(engine, WaveOrder(Ready(pending, m)), m);
    var rest := InWaves(engine, Blocked(pending, m), wave.completed);
    assert gathered + wave.evidence + rest.evidence == gathered + (wave.evidence + rest.evidence);
  }

  /** A step that is ready or done ends the same against the results before and after the wave. */
  lemma SettledEndsTheSame(engine: Engine, plan: seq<StepSpec>, pending: seq<StepSpec>, m: map<StepId, Output>, x: StepSpec)
    requires Scheduled(engine, plan, pending, m) && x in plan && (x in pending ==> DependenciesMet(x, m))
    ensures Attempt(engine, x, InOrder(engine, WaveOrder(Ready(pending, m)), m).completed) == Attempt(engine, x, m)
  {
    WaveStep(engine, plan, pending, m);
    assert x !in pending ==> Settled(engine, x, m);
    AttemptIsStable(engine, x, m, InOrder(engine, WaveOrder(Ready(pending, m)), m).completed);
  }

  /** Of the plan's steps, those no longer pending after the wave end as they did against the results before it. */
  lemma WaveKeepsEnds(engine: Engine, steps: seq<PlanStep>, pending: seq<PlanStep>, m: map<StepId, Output>)
    requires UniqueIds(Specs(steps)) && Scheduled(engine, Specs(steps), Specs(pending), m) && PartOf(pending, steps)
    ensures var m' := InOrder(engine, WaveOrder(Ready(Specs(pending), m)), m).completed;
            forall s :: s in steps && s !in Select(pending, m, false) ==>
              Attempt(engine, s.spec, m') == Attempt(engine, s.spec, m) && (s in pending ==> s in Select(pending, m, true))
  {
    SelectIsFilter(pending, m, true);
    SelectIsFilter(pending, m, false);
    var m' := InOrder(engine, WaveOrder(Ready(Specs(pending), m)), m).completed;
    forall s | s in steps && s !in Select(pending, m, false)
      ensures Attempt(engine, s.spec, m') == Attempt(engine, s.spec, m) && (s in pending ==> s in Select(pending, m, true))
    {
      SpecFindsStep(steps, pending, s);
      SettledEndsTheSame(engine, Specs(steps), Specs(pending), m, s.spec);
    }
  }

  lemma {:induction false} PartOfSelection(steps: seq<PlanStep>, pending: seq<PlanStep>, m: map<StepId, Output>, ready: bool)
    requires PartOf(pending, steps)
    ensures PartOf(Select(pending, m, ready), steps)
    decreases |pending|
  {
    if pending != [] {
      var tail := pending[1..];
      assert forall k :: 0 <= k < |tail| ==> tail[k] == pending[k + 1];
      PartOfSelection(steps, tail, m, ready);
      assert pending[0] in steps;
    }
  }

  lemma CalledAfterWave(engine: Engine, plan: seq<StepSpec>, pending: seq<StepSpec>, m: map<StepId, Output>)
    requires UniqueIds(plan) && Scheduled(engine, plan, pending, m)
    ensures var before := CalledSoFar(engine, plan, pending, m);
            var wave := CalledIds(engine, Ready(pending, m), m);
            var after := CalledSoFar(engine, plan, Blocked(pending, m), InOrder(engine, WaveOrder(Ready(pending, m)), m).completed);
            multiset(before) + multiset(wave) == multiset(after)
  {
    var before, wave := CalledSoFar(engine, plan, pending, m), CalledIds(engine, Ready(pending, m), m);
    var m' := InOrder(engine, WaveOrder(Ready(pending, m)), m).completed;
    var after := CalledSoFar(engine, plan, Blocked(pending, m), m');
    forall x | x in plan && x !in Blocked(pending, m)
      ensures Attempt(engine, x, m') == Attempt(engine, x, m)
    {
      SettledEndsTheSame(engine, plan, pending, m, x);
    }
    forall x, y | x in plan && x !in pending && y in pending
      ensures x.id != y.id
    {
      SameIdSameSpec(plan, x, y);
    }
    assert before !! wave;
    assert before + wave == after;
    assert multiset(before + wave) == multiset(before) + multiset(wave);
  }

  /** The calls of a wave, added to those before it. */
  lemma WaveIsAccounted(first: seq<Call>, had: seq<Call>, calls: seq<Call>, engine: Engine, plan: seq<StepSpec>, pending: seq<StepSpec>,
                        m: map<StepId, Output>, m': map<StepId, Output>)
    requires UniqueIds(plan) && Scheduled(engine, plan, pending, m) && m' == InOrder(engine, WaveOrder(Ready(pending, m)), m).completed
    requires CallsGrewBy(first, had, CalledSoFar(engine, plan, pending, m)) && CalledWith(first, had, plan, m)
    requires CallsGrewBy(had, calls, CalledIds(engine, Ready(pending, m), m)) && CalledWith(had, calls, Ready(pending, m), m')
    ensures CallsGrewBy(first, calls, CalledSoFar(engine, plan, Blocked(pending, m), m'))
    ensures CalledWith(first, calls, plan, m')
  {
    WaveStep(engine, plan, pending, m);
    CalledAfterWave(engine, plan, pending, m);
    CallsReplace(first, had, calls, CalledSoFar(engine, plan, pending, m), CalledSoFar(engine, plan, Blocked(pending, m), m'));
    CalledWithBoth(first, had, calls, plan, m, Ready(pending, m), plan, m');
  }

  /** Without a ready step the pending ones are skipped and the results are final. */
  lemma NothingReady(engine: Engine, plan: seq<StepSpec>, pending: seq<StepSpec>, m: map<StepId, Output>)
    requires Ready(pending, m) == [] && forall x :: x in pending ==> x in plan
    ensures InWaves(engine, pending, m) == Progress(m, [])
    ensures forall x :: x in pending ==> Attempt(engine, x, m) == Skipped
    ensures CalledSoFar(engine, plan, pending, m) == CalledIds(engine, plan, m)
  {
    forall x | x in pending
      ensures Attempt(engine, x, m) == Skipped
    {
      assert x !in Ready(pending, m);
    }
  }

  /** Running the retrievals of a wave leaves its other steps ready, and not yet done. */
  lemma SecondHalfIsFresh(engine: Engine, ready: seq<StepSpec>, m: map<StepId, Output>)
    requires FreshWave(ready, m)
    ensures FreshWave(OfKind(ready, false), InOrder(engine, OfKind(ready, true), m).completed)
  {
    var a, b := OfKind(ready, true), OfKind(ready, false);
    var m' := InOrder(engine, a, m).completed;
    KindIsUnique(ready, true);
    KindIsUnique(ready, false);
    InOrderGrows(engine, a, m);
    forall x | x in b
      ensures x.id !in m' && DependenciesMet(x, m')
    {
      AttemptIsStable(engine, x, m, m');
      if y :| y in a && y.id == x.id {
        SameIdSameSpec(ready, x, y);
      }
    }
  }

  /** A wave is its retrievals followed by its other steps, each half a wave of its own. */
  lemma WaveInTwo(engine: Engine, ready: seq<StepSpec>, m: map<StepId, Output>, gathered: seq<Evidence>)
    requires FreshWave(ready, m)
    ensures FreshWave(OfKind(ready, true), m)
    ensures var first := After(engine, OfKind(ready, true), m, gathered);
            && Submap(m, first.completed)
            && FreshWave(OfKind(ready, false), first.completed)
            && After(engine, OfKind(ready, false), first.completed, first.evidence) == After(engine, WaveOrder(ready), m, gathered)
  {
    var a, b := OfKind(ready, true), OfKind(ready, false);
    KindSplits(ready);
    InOrderGrows(engine, a, m);
    InOrderAppend(engine, a, b, m);
    var m' := InOrder(engine, a, m).completed;
    SecondHalfIsFresh(engine, ready, m);
    var e1, e2 := InOrder(engine, a, m).evidence, InOrder(engine, b, m').evidence;
    assert gathered + e1 + e2 == gathered + (e1 + e2);
  }

  /** The calls of the two halves are different, and together those of the wave. */
  lemma WaveCalls(engine: Engine, ready: seq<StepSpec>, m: map<StepId, Output>, m': map<StepId, Output>)
    requires FreshWave(ready, m) && Submap(m, m')
    ensures var first, second := CalledIds(engine, OfKind(ready, true), m), CalledIds(engine, OfKind(ready, false), m');
            first !! second && first + second == CalledIds(engine, ready, m)
  {
    var a, b := OfKind(ready, true), OfKind(ready, false);
    forall x | x in b
      ensures Attempt(engine, x, m') == Attempt(engine, x, m)
    {
      AttemptIsStable(engine, x, m, m');
    }
    assert CalledIds(engine, b, m') == CalledIds(engine, b, m);
    SplitCalls(engine, ready, a, b, m);
  }

  lemma SplitCalls(engine: Engine, specs: seq<StepSpec>, a: seq<StepSpec>, b: seq<StepSpec>, m: map<StepId, Output>)
    requires UniqueIds(specs)
    requires forall x :: x in specs <==> x in a || x in b
    requires forall x :: x in a ==> x !in b
    ensures CalledIds(engine, a, m) !! CalledIds(engine, b, m)
    ensures CalledIds(engine, a, m) + CalledIds(engine, b, m) == CalledIds(engine, specs, m)
  {
    forall x, y | x in a && y in b
      ensures x.id != y.id
    {
      SameIdSameSpec(specs, x, y);
    }
  }

  lemma CallsReplace(first: seq<Call>, second: seq<Call>, third: seq<Call>, a: set<StepId>, b: set<StepId>)
    requires CallsGrewBy(first, second, a) && multiset(Ids(third)) + multiset(a) == multiset(Ids(second)) + multiset(b)
    ensures CallsGrewBy(first, third, b)
  {
    assert multiset(Ids(third)) == multiset(Ids(third)) + multiset(a) - multiset(a);
    assert multiset(Ids(first)) + multiset(b) == multiset(Ids(first)) + multiset(a) + multiset(b) - multiset(a);
  }

  lemma CallsAddUp(first: seq<Call>, second: seq<Call>, third: seq<Call>, a: set<StepId>, b: set<StepId>)
    requires CallsGrewBy(first, second, a) && CallsGrewBy(second, third, b) && a !! b
    ensures CallsGrewBy(first, third, a + b)
  {
    assert multiset(a + b) == multiset(a) + multiset(b);
  }

  /** Inside a wave each step ends as it does against the wave's starting point. */
  lemma WavePrefix(engine: Engine, specs: seq<StepSpec>, i: nat, m: map<StepId, Output>, gathered: seq<Evidence>)
    requires i < |specs| && FreshWave(specs, m)
    ensures var before := After(engine, specs[..i], m, gathered);
            var end := Attempt(engine, specs[i], m);
            && Attempt(engine, specs[i], before.completed) == end
            && After(engine, specs[..i + 1], m, gathered)
               == Progress(Record(before.completed, specs[i].id, end), before.evidence + EvidenceOf(end))
  {
    InOrderNext(engine, specs, i, m);
    InOrderGrows(engine, specs[..i], m);
    AttemptIsStable(engine, specs[i], m, InOrder(engine, specs[..i], m).completed);
  }

  lemma OneMoreCall(had: seq<Call>, sofar: seq<Call>, calls: seq<Call>, added: set<StepId>, id: StepId)
    requires CallsGrewBy(had, sofar, added) && id !in added
    requires |calls| == |sofar| + 1 && sofar <= calls && calls[|sofar|].spec.id == id
    ensures CallsGrewBy(had, calls, added + {id})
  {
    assert Ids(calls) == Ids(sofar) + [id];
    assert multiset(added + {id}) == multiset(added) + multiset{id};
  }

  lemma CalledSnoc(engine: Engine, specs: seq<StepSpec>, x: StepSpec, m: map<StepId, Output>)
    requires forall y :: y in specs ==> y.id != x.id
    ensures x.id !in CalledIds(engine, specs, m)
    ensures CalledIds(engine, specs + [x], m)
         == CalledIds(engine, specs, m) + if Invoked(Attempt(engine, x, m)) then {x.id} else {}
  {
    var a, b := CalledIds(engine, specs, m), CalledIds(engine, specs + [x], m);
    forall y | y in specs + [x]
      ensures y == x || y in specs
    {
    }
    assert a <= b;
    assert Invoked(Attempt(engine, x, m)) ==> x in specs + [x] && x.id in b;
  }

  /** The step's call, whatever results it was given, adds its id to those called against m. */
  lemma AddCall(had: seq<Call>, sofar: seq<Call>, calls: seq<Call>, engine: Engine, specs: seq<StepSpec>, i: nat, m: map<StepId, Output>,
                given: map<StepId, Output>)
    requires i < |specs| && UniqueIds(specs)
    requires CallsGrewBy(had, sofar, CalledIds(engine, specs[..i], m))
    requires CalledOnce(sofar, calls, engine, specs[i], Attempt(engine, specs[i], m), given)
    ensures CallsGrewBy(had, calls, CalledIds(engine, specs[..i + 1], m))
  {
    CalledSnoc(engine, specs[..i], specs[i], m);
    assert specs[..i + 1] == specs[..i] + [specs[i]];
    if Invoked(Attempt(engine, specs[i], m)) {
      OneMoreCall(had, sofar, calls, CalledIds(engine, specs[..i], m), specs[i].id);
    }
  }

  lemma SpecsCover(steps: seq<PlanStep>)
    ensures forall x :: x in Specs(steps) ==> exists s :: s in steps && s.spec == x
    ensures forall s :: s in steps ==> s.spec in Specs(steps)
  {
    forall s | s in steps
      ensures s.spec in Specs(steps)
    {
      var k :| 0 <= k < |steps| && steps[k] == s;
      assert Specs(steps)[k] == s.spec;
    }
  }

  /** The outcomes keyed by step id, later entries over earlier ones. */
  function Outcomes(engine: Engine, specs: seq<StepSpec>, m: map<StepId, Output>): map<StepId, StepEnd> {
    if specs == [] then map[]
    else Outcomes(engine, specs[..|specs| - 1], m)[specs[|specs| - 1].id := Attempt(engine, specs[|specs| - 1], m)]
  }

  lemma OutcomesNext(engine: Engine, specs: seq<StepSpec>, i: nat, m: map<StepId, Output>)
    requires i < |specs|
    ensures Outcomes(engine, specs[..i + 1], m) == Outcomes(engine, specs[..i], m)[specs[i].id := Attempt(engine, specs[i], m)]
  {
    assert specs[..i + 1][..i] == specs[..i];
  }

  lemma {:induction false} OutcomesLookup(engine: Engine, specs: seq<StepSpec>, m: map<StepId, Output>)
    requires UniqueIds(specs)
    ensures forall x :: x in specs ==> x.id in Outcomes(engine, specs, m) && Outcomes(engine, specs, m)[x.id] == Attempt(engine, x, m)
    decreases |specs|
  {
    if specs != [] {
      var front, last := specs[..|specs| - 1], specs[|specs| - 1];
      OutcomesLookup(engine, front, m);
      forall x | x in specs && x != last
        ensures x in front && x.id != last.id
      {
        SameIdSameSpec(specs, x, last);
      }
    }
  }

  lemma SameStepsSameCalls(engine: Engine, a: seq<StepSpec>, b: seq<StepSpec>, m: map<StepId, Output>)
    requires forall x :: x in a <==> x in b
    ensures CalledIds(engine, a, m) == CalledIds(engine, b, m)
  {
  }

  /** Any order of the batch has the same steps, with the same distinct ids. */
  lemma QueueHoldsBatch(steps: seq<PlanStep>, queue: seq<PlanStep>)
    requires UniqueIds(Specs(steps)) && multiset(queue) == multiset(steps)
    ensures UniqueIds(Specs(queue))
    ensures forall s :: s in steps <==> s in queue
    ensures forall x :: x in Specs(queue) <==> x in Specs(steps)
  {
    forall s
      ensures s in steps <==> s in queue
    {
      assert s in multiset(steps) <==> s in multiset(queue);
    }
    SpecsCover(steps);
    SpecsCover(queue);
    OneOccurrence(steps);
    forall i, j | 0 <= i < j < |queue|
      ensures Specs(queue)[i].id != Specs(queue)[j].id
    {
      assert multiset(queue)[queue[i]] <= 1;
      RepeatCountsTwice(queue, i, j);
      DifferentStepsDifferentIds(steps, queue[i], queue[j]);
    }
  }

  lemma RepeatCountsTwice<T>(xs: seq<T>, i: nat, j: nat)
    requires i < j < |xs|
    ensures xs[i] == xs[j] ==> multiset(xs)[xs[i]] >= 2
  {
    var front, back := xs[..j], xs[j..];
    assert xs == front + back && front[i] == xs[i] && back[0] == xs[j];
    assert front[i] in multiset(front) && back[0] in multiset(back);
  }

  lemma {:induction false} OneOccurrence(steps: seq<PlanStep>)
    requires UniqueIds(Specs(steps))
    ensures forall s :: multiset(steps)[s] <= 1
  {
    if steps != [] {
      assert steps == [steps[0]] + steps[1..];
      SpecsOfCons(steps[0], steps[1..]);
      UniqueTail(Specs(steps));
      OneOccurrence(steps[1..]);
      SpecsCover(steps[1..]);
      assert steps[0] !in steps[1..];
    }
  }

  lemma DifferentStepsDifferentIds(steps: seq<PlanStep>, s: PlanStep, r: PlanStep)
    requires UniqueIds(Specs(steps)) && s in steps && r in steps && s != r
    ensures s.spec.id != r.spec.id
  {
    var i :| 0 <= i < |steps| && steps[i] == s;
    var j :| 0 <= j < |steps| && steps[j] == r;
    assert Specs(steps)[i].id == s.spec.id && Specs(steps)[j].id == r.spec.id;
  }
}
