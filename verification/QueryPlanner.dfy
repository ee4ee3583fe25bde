/**
 The rule planner: a counter hands out step ids while a plan's steps are appended. Every plan it
 returns satisfies what the two execution modes need to agree.
 */
module QueryPlanner {
  import opened PlanSemantics

  datatype ExecutionPlan = ExecutionPlan(intent: string, tasks: seq<StepSpec>)

  datatype TaskType = COMPARISON | DOCUMENT_QA | RESEARCH | FINANCIAL_ANALYSIS | OTHER

  /** Ids count up from `first`, and a step depends only on ids handed out before its own. */
  predicate NumberedFrom(tasks: seq<StepSpec>, first: int) {
    && (forall i :: 0 <= i < |tasks| ==> tasks[i].id == first + i)
    && (forall i, d :: 0 <= i < |tasks| && d in tasks[i].dependsOn ==> first <= d < first + i)
  }

  lemma NumberedPlansAreOrdered(tasks: seq<StepSpec>, first: int)
    requires NumberedFrom(tasks, first)
    ensures UniqueIds(tasks) && DependencyOrdered(tasks)
  {
    forall i, d | 0 <= i < |tasks| && d in tasks[i].dependsOn
      ensures exists j :: 0 <= j < i && tasks[j].id == d
    {
      assert tasks[d - first].id == d;
    }
  }

  /** Sequential and wave execution of a planned query agree on results, endings and evidence. */
  lemma PlannedModesAgree(engine: Engine, tasks: seq<StepSpec>)
    requires NumberedFrom(tasks, 1)
    ensures InOrder(engine, tasks, map[]).completed == InWaves(engine, tasks, map[]).completed
    ensures multiset(InOrder(engine, tasks, map[]).evidence) == multiset(InWaves(engine, tasks, map[]).evidence)
    ensures forall k :: 0 <= k < |tasks| ==>
              (Attempt(engine, tasks[k], InOrder(engine, tasks[..k], map[]).completed)
               == Attempt(engine, tasks[k], InWaves(engine, tasks, map[]).completed))
  {
    NumberedPlansAreOrdered(tasks, 1);
    ParallelRefinesSequential(engine, tasks);
  }

  class Planner {
    var stepCounter: int

    constructor ()
      ensures stepCounter == 1
    {
      stepCounter := 1;
    }

    method NextId() returns (id: int)
      modifies this
      ensures id == old(stepCounter) && stepCounter == id + 1
    {
      id := stepCounter;
      stepCounter := stepCounter + 1;
    }

    /** One retrieval per company, a comparison of all of them, and a synthesis of the comparison. */
    method BuildComparePlan(query: string, companies: seq<string>) returns (plan: ExecutionPlan)
      modifies this
      ensures NumberedFrom(plan.tasks, old(stepCounter)) && stepCounter == old(stepCounter) + |plan.tasks|
      ensures plan.intent == "comparison" && |plan.tasks| == |companies| + 2
      ensures forall i :: 0 <= i < |companies| ==>
                plan.tasks[i] == StepSpec(old(stepCounter) + i, RETRIEVE, [], companies[i])
      ensures plan.tasks[|companies|].stepType == COMPARE
              && plan.tasks[|companies|].dependsOn == seq(|companies|, i => old(stepCounter) + i)
      ensures plan.tasks[|companies| + 1].stepType == SYNTHESIS
              && plan.tasks[|companies| + 1].dependsOn == [old(stepCounter) + |companies|]
    {
      var tasks := [];
      var retrieveIds := [];
      for i := 0 to |companies|
        invariant |tasks| == i && stepCounter == old(stepCounter) + i
        invariant forall k :: 0 <= k < i ==> tasks[k] == StepSpec(old(stepCounter) + k, RETRIEVE, [], companies[k])
        invariant retrieveIds == seq(i, k => old(stepCounter) + k)
      {
        var id := NextId();
        tasks := tasks + [StepSpec(id, RETRIEVE, [], companies[i])];
        retrieveIds := retrieveIds + [id];
      }
      var compareId := NextId();
      tasks := tasks + [StepSpec(compareId, COMPARE, retrieveIds, query)];
      var synthesisId := NextId();
      tasks := tasks + [StepSpec(synthesisId, SYNTHESIS, [compareId], query)];
      plan := ExecutionPlan("comparison", tasks);
    }

    method BuildSinglePlan(query: string, companies: seq<string>) returns (plan: ExecutionPlan)
      modifies this
      ensures NumberedFrom(plan.tasks, old(stepCounter)) && plan.intent == "single_company" && |plan.tasks| == 2
      ensures plan.tasks[0].stepType == RETRIEVE && plan.tasks[1].stepType == REASONING
              && plan.tasks[1].dependsOn == [plan.tasks[0].id]
    {
      var retrieveId := NextId();
      var retrieve := StepSpec(retrieveId, RETRIEVE, [], if companies != [] then companies[0] else query);
      var analysisId := NextId();
      plan := ExecutionPlan("single_company", [retrieve, StepSpec(analysisId, REASONING, [retrieveId], query)]);
    }

    method BuildGlobalPlan(query: string) returns (plan: ExecutionPlan)
      modifies this
      ensures NumberedFrom(plan.tasks, old(stepCounter)) && plan.intent == "global_research" && |plan.tasks| == 2
      ensures plan.tasks[0].stepType == RETRIEVE && plan.tasks[1].stepType == SYNTHESIS
              && plan.tasks[1].dependsOn == [plan.tasks[0].id]
    {
      var retrieveId := NextId();
      var synthesisId := NextId();
      plan := ExecutionPlan("global_research",
                            [StepSpec(retrieveId, RETRIEVE, [], query), StepSpec(synthesisId, SYNTHESIS, [retrieveId], query)]);
    }

    method BuildOneStepPlan(intent: string, stepType: StepType, query: string) returns (plan: ExecutionPlan)
      modifies this
      ensures NumberedFrom(plan.tasks, old(stepCounter)) && plan.intent == intent
      ensures plan.tasks == [StepSpec(old(stepCounter), stepType, [], query)]
    {
      var id := NextId();
      plan := ExecutionPlan(intent, [StepSpec(id, stepType, [], query)]);
    }

    /**
     A recognised financial metric takes precedence over the task type. Whatever the counter held,
     the plan is numbered from one, so both execution modes agree on it.
     */
    method PlanSerialized(query: string, taskType: TaskType, companies: seq<string>, metric: bool) returns (plan: ExecutionPlan)
      modifies this
      ensures NumberedFrom(plan.tasks, 1) && UniqueIds(plan.tasks) && DependencyOrdered(plan.tasks)
      ensures plan.intent == if metric then "financial_calculation"
                             else match taskType
                               case COMPARISON => "comparison"
                               case DOCUMENT_QA => "single_company"
                               case RESEARCH => "global_research"
                               case FINANCIAL_ANALYSIS => "global_research"
                               case OTHER => "generic"
      ensures !metric && taskType == COMPARISON ==> |plan.tasks| == |companies| + 2
    {
      stepCounter := 1;
      if metric {
        plan := BuildOneStepPlan("financial_calculation", TOOL_CALL, query);
      } else {
        match taskType {
          case COMPARISON => plan := BuildComparePlan(query, companies);
          case DOCUMENT_QA => plan := BuildSinglePlan(query, companies);
          case RESEARCH => plan := BuildGlobalPlan(query);
          case FINANCIAL_ANALYSIS => plan := BuildGlobalPlan(query);
          case OTHER => plan := BuildOneStepPlan("generic", RETRIEVE, query);
        }
      }
      NumberedPlansAreOrdered(plan.tasks, 1);
    }
  }
}
