/**
 What executing a plan means: one step against a map of completed results, the sequential order,
 the waves of the parallel scheduler, and the least fixed point both are measured against.

 A handler is an arbitrary function of the step and of the results of the dependencies the step
 declares. Outputs and evidence are opaque values of which only equality is used.
 */
module PlanSemantics {
  import opened Wrappers

  type StepId = int
  type Output = string
  type Evidence = string

  datatype StepType = RETRIEVE | COMPARE | SYNTHESIS | TOOL_CALL | REASONING

  datatype StepStatus = PENDING | RUNNING | COMPLETED | FAILED | SKIPPED

  datatype StepSpec = StepSpec(id: StepId, stepType: StepType, dependsOn: seq<StepId>, parameters: string)

  datatype ExecutionResult = ExecutionResult(stepId: StepId, success: bool, output: Option<Output>, error: Option<string>)

  datatype HandlerOutcome = Returns(output: Output, evidence: seq<Evidence>) | Raises(error: string)

  type Handler = (StepSpec, map<StepId, Output>) -> HandlerOutcome

  datatype Engine = Engine(handlers: map<StepType, Handler>)

  /** A handler call: the step, and the results it was given. */
  datatype Call = Call(spec: StepSpec, results: map<StepId, Output>)

  /** The handler got the result of each dependency the step declares, and nothing else. */
  ghost predicate HandedOver(call: Call, completed: map<StepId, Output>) {
    && (forall d :: d in call.results <==> d in call.spec.dependsOn)
    && (forall d :: d in call.spec.dependsOn ==> d in completed && call.results[d] == completed[d])
  }

  /** More results do not change what was handed over. */
  lemma HandedOverStays(call: Call, a: map<StepId, Output>, b: map<StepId, Output>)
    requires HandedOver(call, a) && forall k :: k in a ==> k in b && a[k] == b[k]
    ensures HandedOver(call, b)
  {
  }

  /** How one step ends. */
  datatype StepEnd =
    | Skipped
    | Unhandled
    | Failed(error: string)
    | Done(output: Output, evidence: seq<Evidence>)

  predicate DependenciesMet(spec: StepSpec, completed: map<StepId, Output>) {
    forall d :: d in spec.dependsOn ==> d in completed
  }

  function DeclaredResults(spec: StepSpec, completed: map<StepId, Output>): map<StepId, Output> {
    map d | d in completed && d in spec.dependsOn :: completed[d]
  }

  /** The step run once against the completed results. */
  function Attempt(engine: Engine, spec: StepSpec, completed: map<StepId, Output>): StepEnd {
    if !DependenciesMet(spec, completed) then Skipped
    else if spec.stepType !in engine.handlers then Unhandled
    else EndOfCall(engine.handlers[spec.stepType](spec, DeclaredResults(spec, completed)))
  }

  function EndOfCall(outcome: HandlerOutcome): StepEnd {
    match outcome
    case Returns(output, evidence) => Done(output, evidence)
    case Raises(error) => Failed(error)
  }

  function StatusOf(end: StepEnd): StepStatus {
    match end
    case Skipped => SKIPPED
    case Done(_, _) => COMPLETED
    case _ => FAILED
  }

  function ResultOf(id: StepId, end: StepEnd): ExecutionResult {
    match end
    case Skipped => ExecutionResult(id, false, None, Some("Dependencies not met"))
    case Unhandled => ExecutionResult(id, false, None, Some("No handler registered"))
    case Failed(error) => ExecutionResult(id, false, None, Some(error))
    case Done(output, _) => ExecutionResult(id, true, Some(output), None)
  }

  /** What the recorded statuses and results mean. */
  lemma StatusesMean(engine: Engine, spec: StepSpec, completed: map<StepId, Output>) returns (given: map<StepId, Output>)
    ensures forall d :: d in given <==> d in spec.dependsOn && d in completed
    ensures forall d :: d in given ==> given[d] == completed[d]
    ensures var end := Attempt(engine, spec, completed); var result := ResultOf(spec.id, end);
            && result.stepId == spec.id
            && (StatusOf(end) == SKIPPED <==> exists d :: d in spec.dependsOn && d !in completed)
            && (StatusOf(end) == COMPLETED <==>
                  && (forall d :: d in spec.dependsOn ==> d in completed)
                  && spec.stepType in engine.handlers && engine.handlers[spec.stepType](spec, given).Returns?)
            && (StatusOf(end) == COMPLETED ==>
                  result.success && result.error == None && result.output == Some(engine.handlers[spec.stepType](spec, given).output))
            && (StatusOf(end) != COMPLETED ==> StatusOf(end) in {SKIPPED, FAILED} && !result.success && result.output == None && result.error.Some?)
  {
    given := DeclaredResults(spec, completed);
    assert DependenciesMet(spec, completed) <==> forall d :: d in spec.dependsOn ==> d in completed;
  }

  function Record(completed: map<StepId, Output>, id: StepId, end: StepEnd): map<StepId, Output> {
    if end.Done? then completed[id := end.output] else completed
  }

  function EvidenceOf(end: StepEnd): seq<Evidence> { if end.Done? then end.evidence else [] }

  // ---------------------------------------------------------------------------------------
  // The two schedules.

  datatype Progress = Progress(completed: map<StepId, Output>, evidence: seq<Evidence>)

  /** The steps one after the other, each seeing what completed before it. */
  function InOrder(engine: Engine, specs: seq<StepSpec>, completed: map<StepId, Output>): Progress {
    if specs == [] then Progress(completed, [])
    else
      var end := Attempt(engine, specs[0], completed);
      var rest := InOrder(engine, specs[1..], Record(completed, specs[0].id, end));
      Progress(rest.completed, EvidenceOf(end) + rest.evidence)
  }

  function Ready(specs: seq<StepSpec>, completed: map<StepId, Output>): (ready: seq<StepSpec>)
    ensures forall x :: x in ready <==> x in specs && DependenciesMet(x, completed)
    ensures |ready| <= |specs|
  {
    if specs == [] then []
    else if DependenciesMet(specs[0], completed) then [specs[0]] + Ready(specs[1..], completed)
    else Ready(specs[1..], completed)
  }

  function Blocked(specs: seq<StepSpec>, completed: map<StepId, Output>): (blocked: seq<StepSpec>)
    ensures forall x :: x in blocked <==> x in specs && !DependenciesMet(x, completed)
    ensures |blocked| + |Ready(specs, completed)| == |specs|
  {
    if specs == [] then []
    else if DependenciesMet(specs[0], completed) then Blocked(specs[1..], completed)
    else [specs[0]] + Blocked(specs[1..], completed)
  }

  function OfKind(specs: seq<StepSpec>, retrieval: bool): (some: seq<StepSpec>)
    ensures forall x :: x in some <==> x in specs && x.stepType.RETRIEVE? == retrieval
  {
    if specs == [] then []
    else if specs[0].stepType.RETRIEVE? == retrieval then [specs[0]] + OfKind(specs[1..], retrieval)
    else OfKind(specs[1..], retrieval)
  }

  /** Inside a wave: the retrievals in plan order, then the other steps in plan order. */
  function WaveOrder(ready: seq<StepSpec>): seq<StepSpec> { OfKind(ready, true) + OfKind(ready, false) }

  /** Wave after wave of ready steps, until nothing pending is ready. */
  function InWaves(engine: Engine, pending: seq<StepSpec>, completed: map<StepId, Output>): Progress
    decreases |pending|
  {
    var ready := Ready(pending, completed);
    if ready == [] then Progress(completed, [])
    else
      var wave := InOrder(engine, WaveOrder(ready), completed);
      var rest := InWaves(engine, Blocked(pending, completed), wave.completed);
      Progress(rest.completed, wave.evidence + rest.evidence)
  }

  // ---------------------------------------------------------------------------------------
  // The reference: the least set of results closed under "dependencies met and handler succeeded".

  predicate Submap(a: map<StepId, Output>, b: map<StepId, Output>) {
    forall k :: k in a ==> k in b && a[k] == b[k]
  }

  ghost predicate Closed(engine: Engine, plan: seq<StepSpec>, m: map<StepId, Output>) {
    forall x :: x in plan && Attempt(engine, x, m).Done? ==> x.id in m && m[x.id] == Attempt(engine, x, m).output
  }

  /** Part of every closed set of results. */
  ghost predicate Forced(engine: Engine, plan: seq<StepSpec>, m: map<StepId, Output>) {
    forall c :: Closed(engine, plan, c) ==> Submap(m, c)
  }

  ghost predicate IsLeastFixedPoint(engine: Engine, plan: seq<StepSpec>, m: map<StepId, Output>) {
    Closed(engine, plan, m) && Forced(engine, plan, m)
  }

  predicate UniqueIds(specs: seq<StepSpec>) {
    forall i, j :: 0 <= i < j < |specs| ==> specs[i].id != specs[j].id
  }

  predicate NoneDone(specs: seq<StepSpec>, m: map<StepId, Output>) {
    forall x :: x in specs ==> x.id !in m
  }

  /** Each step only depends on steps before it. */
  predicate DependencyOrdered(plan: seq<StepSpec>) {
    forall i, d :: 0 <= i < |plan| && d in plan[i].dependsOn ==> exists j :: 0 <= j < i && plan[j].id == d
  }

  lemma LeastFixedPointIsUnique(engine: Engine, plan: seq<StepSpec>, a: map<StepId, Output>, b: map<StepId, Output>)
    requires IsLeastFixedPoint(engine, plan, a) && IsLeastFixedPoint(engine, plan, b)
    ensures a == b
  {
    assert Submap(a, b) && Submap(b, a);
    forall k | k in a.Keys + b.Keys
      ensures k in a && k in b && a[k] == b[k]
    {
    }
    assert a.Keys == b.Keys && forall k :: k in a.Keys ==> a[k] == b[k];
  }

  /** Once a step's dependencies are met, later results do not change how it ends. */
  lemma AttemptIsStable(engine: Engine, spec: StepSpec, a: map<StepId, Output>, b: map<StepId, Output>)
    requires DependenciesMet(spec, a) && Submap(a, b)
    ensures DependenciesMet(spec, b) && Attempt(engine, spec, a) == Attempt(engine, spec, b)
  {
    var ra, rb := DeclaredResults(spec, a), DeclaredResults(spec, b);
    forall d | d in spec.dependsOn
      ensures d in ra && d in rb && ra[d] == rb[d]
    {
    }
    assert ra.Keys == rb.Keys;
    assert ra == rb;
  }

  lemma ForcedStep(engine: Engine, plan: seq<StepSpec>, m: map<StepId, Output>, x: StepSpec)
    requires Forced(engine, plan, m) && x in plan
    ensures Forced(engine, plan, Record(m, x.id, Attempt(engine, x, m)))
  {
    var end := Attempt(engine, x, m);
    if end.Done? {
      forall c | Closed(engine, plan, c)
        ensures Submap(m[x.id := end.output], c)
      {
        AttemptIsStable(engine, x, m, c);
      }
    }
  }

  lemma {:induction false} InOrderIsForced(engine: Engine, plan: seq<StepSpec>, specs: seq<StepSpec>, m: map<StepId, Output>)
    requires Forced(engine, plan, m) && forall x :: x in specs ==> x in plan
    ensures Forced(engine, plan, InOrder(engine, specs, m).completed)
  {
    if specs != [] {
      ForcedStep(engine, plan, m, specs[0]);
      InOrderIsForced(engine, plan, specs[1..], Record(m, specs[0].id, Attempt(engine, specs[0], m)));
    }
  }

  lemma UniqueTail(specs: seq<StepSpec>)
    requires UniqueIds(specs) && specs != []
    ensures UniqueIds(specs[1..]) && forall x :: x in specs[1..] ==> x.id != specs[0].id
  {
  }

  /** Running fresh steps only adds results, under their own ids. */
  lemma {:induction false} InOrderGrows(engine: Engine, specs: seq<StepSpec>, m: map<StepId, Output>)
    requires UniqueIds(specs) && NoneDone(specs, m)
    ensures Submap(m, InOrder(engine, specs, m).completed)
    ensures forall k :: k in InOrder(engine, specs, m).completed ==> k in m || exists x :: x in specs && x.id == k
  {
    if specs != [] {
      UniqueTail(specs);
      var m' := Record(m, specs[0].id, Attempt(engine, specs[0], m));
      InOrderGrows(engine, specs[1..], m');
      assert specs[0] in specs;
    }
  }

  /** The step's dependencies are met and, if it succeeds, its output is recorded. */
  predicate Settled(engine: Engine, x: StepSpec, m: map<StepId, Output>) {
    && DependenciesMet(x, m)
    && (Attempt(engine, x, m).Done? ==> x.id in m && m[x.id] == Attempt(engine, x, m).output)
  }

  lemma SettledStays(engine: Engine, x: StepSpec, a: map<StepId, Output>, b: map<StepId, Output>)
    requires Settled(engine, x, a) && Submap(a, b)
    ensures Settled(engine, x, b)
  {
    AttemptIsStable(engine, x, a, b);
  }

  lemma {:induction false} WaveSettles(engine: Engine, wave: seq<StepSpec>, m: map<StepId, Output>)
    requires UniqueIds(wave) && NoneDone(wave, m) && forall x :: x in wave ==> DependenciesMet(x, m)
    ensures forall x :: x in wave ==> Settled(engine, x, InOrder(engine, wave, m).completed)
  {
    if wave != [] {
      UniqueTail(wave);
      var m' := Record(m, wave[0].id, Attempt(engine, wave[0], m));
      assert Submap(m, m');
      AttemptIsStable(engine, wave[0], m, m');
      forall x | x in wave[1..]
        ensures DependenciesMet(x, m')
      {
        assert x in wave;
      }
      WaveSettles(engine, wave[1..], m');
      InOrderGrows(engine, wave[1..], m');
      SettledStays(engine, wave[0], m', InOrder(engine, wave, m).completed);
      assert forall x :: x in wave ==> x == wave[0] || x in wave[1..];
    }
  }

  lemma {:induction false} KindsPermute(specs: seq<StepSpec>)
    ensures multiset(WaveOrder(specs)) == multiset(specs)
  {
    if specs != [] {
      KindsPermute(specs[1..]);
      assert specs == [specs[0]] + specs[1..];
      var first, second := OfKind(specs[1..], true), OfKind(specs[1..], false);
      assert multiset(first + second) == multiset(specs[1..]);
      if specs[0].stepType.RETRIEVE? {
        assert WaveOrder(specs) == [specs[0]] + (first + second);
      } else {
        assert WaveOrder(specs) == first + ([specs[0]] + second);
      }
    }
  }

  lemma {:induction false} KindIsUnique(specs: seq<StepSpec>, retrieves: bool)
    requires UniqueIds(specs)
    ensures UniqueIds(OfKind(specs, retrieves))
  {
    if specs != [] {
      UniqueTail(specs);
      KindIsUnique(specs[1..], retrieves);
      var rest := OfKind(specs[1..], retrieves);
      forall k | 0 <= k < |rest|
        ensures rest[k].id != specs[0].id
      {
        assert rest[k] in specs[1..];
      }
    }
  }

  lemma KindSplits(specs: seq<StepSpec>)
    requires UniqueIds(specs)
    ensures UniqueIds(OfKind(specs, true)) && UniqueIds(OfKind(specs, false)) && UniqueIds(WaveOrder(specs))
    ensures multiset(WaveOrder(specs)) == multiset(specs)
  {
    KindsPermute(specs);
    KindIsUnique(specs, true);
    KindIsUnique(specs, false);
    DisjointKindsUnique(OfKind(specs, true), OfKind(specs, false), specs);
  }

  lemma DisjointKindsUnique(a: seq<StepSpec>, b: seq<StepSpec>, specs: seq<StepSpec>)
    requires UniqueIds(specs) && UniqueIds(a) && UniqueIds(b)
    requires forall x :: x in a ==> x in specs && x !in b
    requires forall x :: x in b ==> x in specs
    ensures UniqueIds(a + b)
  {
    forall i, j | 0 <= i < j < |a + b|
      ensures (a + b)[i].id != (a + b)[j].id
    {
      if i < |a| && |a| <= j {
        assert a[i] in a && b[j - |a|] in b;
        SameIdSameSpec(specs, a[i], b[j - |a|]);
      }
    }
  }

  lemma SameIdSameSpec(specs: seq<StepSpec>, x: StepSpec, y: StepSpec)
    requires UniqueIds(specs) && x in specs && y in specs
    ensures x.id == y.id ==> x == y
  {
  }

  lemma ConsUnique(x: StepSpec, xs: seq<StepSpec>)
    requires UniqueIds(xs) && forall y :: y in xs ==> y.id != x.id
    ensures UniqueIds([x] + xs)
  {
  }

  lemma {:induction false} SplitIsUnique(specs: seq<StepSpec>, m: map<StepId, Output>)
    requires UniqueIds(specs)
    ensures UniqueIds(Ready(specs, m)) && UniqueIds(Blocked(specs, m))
    ensures multiset(Ready(specs, m)) + multiset(Blocked(specs, m)) == multiset(specs)
  {
    if specs != [] {
      var x, tail := specs[0], specs[1..];
      UniqueTail(specs);
      SplitIsUnique(tail, m);
      ConsUnique(x, Ready(tail, m));
      ConsUnique(x, Blocked(tail, m));
      assert multiset([x] + tail) == multiset{x} + multiset(tail) && specs == [x] + tail;
    }
  }

  /** Every step of the plan that is no longer pending is settled. */
  predicate AllSettled(engine: Engine, plan: seq<StepSpec>, pending: seq<StepSpec>, m: map<StepId, Output>) {
    forall x :: x in plan && x !in pending ==> Settled(engine, x, m)
  }

  /** What one wave does to the scheduler's invariants. */
  lemma WaveStep(engine: Engine, plan: seq<StepSpec>, pending: seq<StepSpec>, m: map<StepId, Output>)
    requires UniqueIds(pending) && NoneDone(pending, m) && (forall x :: x in pending ==> x in plan)
    requires Forced(engine, plan, m) && AllSettled(engine, plan, pending, m)
    ensures var m' := InOrder(engine, WaveOrder(Ready(pending, m)), m).completed;
            var rest := Blocked(pending, m);
            && Submap(m, m') && UniqueIds(rest) && NoneDone(rest, m')
            && Forced(engine, plan, m') && AllSettled(engine, plan, rest, m')
  {
    var ready, rest := Ready(pending, m), Blocked(pending, m);
    var wave := WaveOrder(ready);
    SplitIsUnique(pending, m);
    KindSplits(ready);
    forall x | x in wave
      ensures x in ready
    {
    }
    var m' := InOrder(engine, wave, m).completed;
    InOrderGrows(engine, wave, m);
    InOrderIsForced(engine, plan, wave, m);
    WaveSettles(engine, wave, m);
    forall x | x in plan && x !in rest
      ensures Settled(engine, x, m')
    {
      if x in pending {
        assert x in ready;
        assert x in wave;
      } else {
        SettledStays(engine, x, m, m');
      }
    }
    forall x | x in rest
      ensures x.id !in m'
    {
      if y :| y in wave && y.id == x.id {
        SameIdSameSpec(pending, x, y);
      }
    }
  }

  lemma {:induction false} InWavesIsLeast(engine: Engine, plan: seq<StepSpec>, pending: seq<StepSpec>, m: map<StepId, Output>)
    requires UniqueIds(pending) && NoneDone(pending, m) && (forall x :: x in pending ==> x in plan)
    requires Forced(engine, plan, m) && AllSettled(engine, plan, pending, m)
    ensures IsLeastFixedPoint(engine, plan, InWaves(engine, pending, m).completed)
    ensures Submap(m, InWaves(engine, pending, m).completed)
    decreases |pending|
  {
    var ready := Ready(pending, m);
    if ready == [] {
      forall x | x in plan && Attempt(engine, x, m).Done?
        ensures x.id in m && m[x.id] == Attempt(engine, x, m).output
      {
        assert x in pending ==> x in ready;
        assert x in plan && x !in pending ==> Settled(engine, x, m);
      }
    } else {
      WaveStep(engine, plan, pending, m);
      InWavesIsLeast(engine, plan, Blocked(pending, m), InOrder(engine, WaveOrder(ready), m).completed);
    }
  }

  /** The wave scheduler completes exactly the least fixed point, cycles and missing dependencies included. */
  lemma WavesComputeLeastFixedPoint(engine: Engine, plan: seq<StepSpec>)
    requires UniqueIds(plan)
    ensures IsLeastFixedPoint(engine, plan, InWaves(engine, plan, map[]).completed)
  {
    InWavesIsLeast(engine, plan, plan, map[]);
  }

  /** For any plan at all, what the sequential executor completes is part of the least fixed point. */
  lemma SequentialIsContained(engine: Engine, plan: seq<StepSpec>)
    requires UniqueIds(plan)
    ensures Submap(InOrder(engine, plan, map[]).completed, InWaves(engine, plan, map[]).completed)
  {
    InOrderIsForced(engine, plan, plan, map[]);
    WavesComputeLeastFixedPoint(engine, plan);
  }

  lemma {:induction false} InOrderAppend(engine: Engine, a: seq<StepSpec>, b: seq<StepSpec>, m: map<StepId, Output>)
    ensures var first := InOrder(engine, a, m);
            var second := InOrder(engine, b, first.completed);
            InOrder(engine, a + b, m) == Progress(second.completed, first.evidence + second.evidence)
  {
    if a == [] {
      assert a + b == b;
    } else {
      assert (a + b)[0] == a[0] && (a + b)[1..] == a[1..] + b;
      InOrderAppend(engine, a[1..], b, Record(m, a[0].id, Attempt(engine, a[0], m)));
    }
  }

  lemma InOrderNext(engine: Engine, specs: seq<StepSpec>, k: nat, m: map<StepId, Output>)
    requires k < |specs|
    ensures var before := InOrder(engine, specs[..k], m);
            var end := Attempt(engine, specs[k], before.completed);
            InOrder(engine, specs[..k + 1], m)
            == Progress(Record(before.completed, specs[k].id, end), before.evidence + EvidenceOf(end))
  {
    InOrderAppend(engine, specs[..k], [specs[k]], m);
    assert specs[..k + 1] == specs[..k] + [specs[k]] && [specs[k]][1..] == [];
  }

  /** The handlers that run: those of steps whose dependencies are met and whose type has one. */
  predicate Invoked(end: StepEnd) { end.Done? || end.Failed? }

  function CalledIds(engine: Engine, specs: seq<StepSpec>, m: map<StepId, Output>): set<StepId> {
    set x | x in specs && Invoked(Attempt(engine, x, m)) :: x.id
  }

  // ---------------------------------------------------------------------------------------
  // Evidence: what each completed step contributed, in plan order.

  function PlanEvidence(engine: Engine, specs: seq<StepSpec>, m: map<StepId, Output>): seq<Evidence> {
    if specs == [] then []
    else EvidenceOf(Attempt(engine, specs[0], m)) + PlanEvidence(engine, specs[1..], m)
  }

  lemma RemoveFromBoth(a: seq<StepSpec>, b: seq<StepSpec>, k: nat)
    requires a != [] && k < |b| && b[k] == a[0] && multiset(a) == multiset(b)
    ensures multiset(a[1..]) == multiset(b[..k] + b[k + 1..])
  {
    var one := multiset{a[0]};
    assert a == [a[0]] + a[1..] && b == b[..k] + [a[0]] + b[k + 1..];
    assert multiset(a[1..]) == multiset(a) - one;
    assert multiset(b[..k] + b[k + 1..]) == multiset(b[..k]) + multiset(b[k + 1..]) == multiset(b) - one;
  }

  lemma MoveToFront(e: seq<Evidence>, p: seq<Evidence>, q: seq<Evidence>, r: seq<Evidence>)
    requires multiset(r) == multiset(p + q)
    ensures multiset(e + r) == multiset(p + (e + q))
  {
  }

  lemma EvidenceWithStep(engine: Engine, specs: seq<StepSpec>, k: nat, m: map<StepId, Output>)
    requires k < |specs|
    ensures PlanEvidence(engine, specs, m)
         == PlanEvidence(engine, specs[..k], m) + (EvidenceOf(Attempt(engine, specs[k], m)) + PlanEvidence(engine, specs[k + 1..], m))
  {
    EvidenceAppend(engine, specs[..k], specs[k..], m);
    assert specs == specs[..k] + specs[k..] && specs[k..][0] == specs[k] && specs[k..][1..] == specs[k + 1..];
  }

  /** The evidence of a bag of steps does not depend on their order. */
  lemma {:induction false} EvidenceOfBag(engine: Engine, a: seq<StepSpec>, b: seq<StepSpec>, m: map<StepId, Output>)
    requires multiset(a) == multiset(b)
    ensures multiset(PlanEvidence(engine, a, m)) == multiset(PlanEvidence(engine, b, m))
    decreases |a|
  {
    if a == [] {
      assert |multiset(b)| == 0;
    } else {
      assert a[0] in multiset(a);
      var k :| 0 <= k < |b| && b[k] == a[0];
      RemoveFromBoth(a, b, k);
      EvidenceOfBag(engine, a[1..], b[..k] + b[k + 1..], m);
      EvidenceWithStep(engine, b, k, m);
      EvidenceAppend(engine, b[..k], b[k + 1..], m);
      MoveToFront(EvidenceOf(Attempt(engine, a[0], m)), PlanEvidence(engine, b[..k], m), PlanEvidence(engine, b[k + 1..], m),
                  PlanEvidence(engine, a[1..], m));
    }
  }

  lemma {:induction false} EvidenceAppend(engine: Engine, a: seq<StepSpec>, b: seq<StepSpec>, m: map<StepId, Output>)
    ensures PlanEvidence(engine, a + b, m) == PlanEvidence(engine, a, m) + PlanEvidence(engine, b, m)
  {
    if a == [] {
      assert a + b == b;
    } else {
      assert (a + b)[0] == a[0] && (a + b)[1..] == a[1..] + b;
      EvidenceAppend(engine, a[1..], b, m);
    }
  }

  lemma {:induction false} WaveEvidence(engine: Engine, wave: seq<StepSpec>, m: map<StepId, Output>, later: map<StepId, Output>)
    requires UniqueIds(wave) && NoneDone(wave, m) && forall x :: x in wave ==> DependenciesMet(x, m)
    requires Submap(InOrder(engine, wave, m).completed, later)
    ensures InOrder(engine, wave, m).evidence == PlanEvidence(engine, wave, later)
  {
    if wave != [] {
      UniqueTail(wave);
      InOrderGrows(engine, wave, m);
      var m' := Record(m, wave[0].id, Attempt(engine, wave[0], m));
      AttemptIsStable(engine, wave[0], m, later);
      forall x | x in wave[1..]
        ensures DependenciesMet(x, m')
      {
        assert x in wave;
      }
      WaveEvidence(engine, wave[1..], m', later);
    }
  }

  lemma {:induction false} BlockedEvidenceIsEmpty(engine: Engine, pending: seq<StepSpec>, m: map<StepId, Output>)
    requires Ready(pending, m) == []
    ensures PlanEvidence(engine, pending, m) == []
  {
    if pending != [] {
      BlockedEvidenceIsEmpty(engine, pending[1..], m);
    }
  }

  /** The waves gather exactly the evidence of the completed steps: a permutation of plan order. */
  lemma {:induction false} WavesGatherAllEvidence(engine: Engine, plan: seq<StepSpec>, pending: seq<StepSpec>, m: map<StepId, Output>)
    requires UniqueIds(pending) && NoneDone(pending, m) && (forall x :: x in pending ==> x in plan)
    requires Forced(engine, plan, m) && AllSettled(engine, plan, pending, m)
    ensures multiset(InWaves(engine, pending, m).evidence)
         == multiset(PlanEvidence(engine, pending, InWaves(engine, pending, m).completed))
    decreases |pending|
  {
    var ready := Ready(pending, m);
    if ready == [] {
      BlockedEvidenceIsEmpty(engine, pending, m);
    } else {
      var wave, rest := WaveOrder(ready), Blocked(pending, m);
      var m' := InOrder(engine, wave, m).completed;
      var final := InWaves(engine, pending, m).completed;
      SplitIsUnique(pending, m);
      KindSplits(ready);
      WaveStep(engine, plan, pending, m);
      InWavesIsLeast(engine, plan, rest, m');
      WaveEvidence(engine, wave, m, final);
      WavesGatherAllEvidence(engine, plan, rest, m');
      EvidenceAppend(engine, wave, rest, final);
      assert multiset(wave + rest) == multiset(pending);
      EvidenceOfBag(engine, wave + rest, pending, final);
    }
  }

  // ---------------------------------------------------------------------------------------
  // Dependency-ordered plans: both schedules agree.

  /** Running the rest of an ordered plan, every step ends as it would against the final results. */
  lemma {:induction false} OrderedStepsEndFinally(engine: Engine, done: seq<StepSpec>, rest: seq<StepSpec>, m: map<StepId, Output>)
    requires UniqueIds(done + rest) && DependencyOrdered(done + rest) && NoneDone(rest, m)
    ensures var final := InOrder(engine, rest, m);
            && (forall k :: 0 <= k < |rest| ==>
                  Attempt(engine, rest[k], InOrder(engine, rest[..k], m).completed) == Attempt(engine, rest[k], final.completed))
            && (forall x :: x in rest ==> (Attempt(engine, x, final.completed).Done? ==>
                  x.id in final.completed && final.completed[x.id] == Attempt(engine, x, final.completed).output))
            && final.evidence == PlanEvidence(engine, rest, final.completed)
    decreases |rest|
  {
    if rest != [] {
      var x := rest[0];
      var m' := Record(m, x.id, Attempt(engine, x, m));
      var final := InOrder(engine, rest, m).completed;
      assert UniqueIds(rest) by {
        assert forall i :: 0 <= i < |rest| ==> rest[i] == (done + rest)[|done| + i];
      }
      UniqueTail(rest);
      assert (done + [x]) + rest[1..] == done + rest;
      OrderedStepsEndFinally(engine, done + [x], rest[1..], m');
      InOrderGrows(engine, rest, m);
      InOrderGrows(engine, rest[1..], m');
      FirstEndsFinally(engine, done, rest, m);
      forall k | 0 <= k < |rest|
        ensures Attempt(engine, rest[k], InOrder(engine, rest[..k], m).completed) == Attempt(engine, rest[k], final)
      {
        if k > 0 {
          assert rest[..k][0] == x && rest[..k][1..] == rest[1..][..k - 1];
        }
      }
    }
  }

  lemma FirstEndsFinally(engine: Engine, done: seq<StepSpec>, rest: seq<StepSpec>, m: map<StepId, Output>)
    requires rest != [] && UniqueIds(done + rest) && UniqueIds(rest) && DependencyOrdered(done + rest) && NoneDone(rest, m)
    ensures Attempt(engine, rest[0], m) == Attempt(engine, rest[0], InOrder(engine, rest, m).completed)
  {
    var x, final := rest[0], InOrder(engine, rest, m).completed;
    InOrderGrows(engine, rest, m);
    if DependenciesMet(x, m) {
      AttemptIsStable(engine, x, m, final);
    } else {
      var d :| d in x.dependsOn && d !in m;
      assert (done + rest)[|done|] == x;
      var j :| 0 <= j < |done| && (done + rest)[j].id == d;
      forall k | 0 <= k < |rest|
        ensures rest[k].id != d
      {
        assert (done + rest)[|done| + k] == rest[k];
      }
      assert d !in final;
    }
  }

  /**
   On a dependency-ordered plan the two modes complete the same steps with the same results, each
   step ends the same way, and the evidence is a permutation.
   */
  lemma ParallelRefinesSequential(engine: Engine, plan: seq<StepSpec>)
    requires UniqueIds(plan) && DependencyOrdered(plan)
    ensures InOrder(engine, plan, map[]).completed == InWaves(engine, plan, map[]).completed
    ensures forall k :: 0 <= k < |plan| ==>
              (Attempt(engine, plan[k], InOrder(engine, plan[..k], map[]).completed)
               == Attempt(engine, plan[k], InWaves(engine, plan, map[]).completed))
    ensures multiset(InOrder(engine, plan, map[]).evidence) == multiset(InWaves(engine, plan, map[]).evidence)
  {
    assert [] + plan == plan;
    OrderedStepsEndFinally(engine, [], plan, map[]);
    InOrderIsForced(engine, plan, plan, map[]);
    WavesComputeLeastFixedPoint(engine, plan);
    LeastFixedPointIsUnique(engine, plan, InOrder(engine, plan, map[]).completed, InWaves(engine, plan, map[]).completed);
    WavesGatherAllEvidence(engine, plan, plan, map[]);
  }
}
