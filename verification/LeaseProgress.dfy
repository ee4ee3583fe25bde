/**
 Progress: in runs without crashes and recoveries every task that was created is worked off.
 A lexicographic measure (retries left, then how far the present attempt got) falls with every
 step a worker takes on the task and is zero exactly when the task is finally done.
 */
module LeaseProgress {
  import opened Wrappers
  import opened TaskTable
  import opened LeaseProtocol
  import opened LeaseExclusion
  import opened LeaseConservation

  /** SUCCESS, or FAILED with no retry left. */
  predicate Done(cfg: Config, row: Row) {
    row.status == SUCCESS || (row.status == FAILED && row.retryCount >= cfg.maxRetry)
  }

  /**
   The labels considered: no crash, no recovery, and a handler that reports success has written a
   final status before.
   */
  predicate Undisturbed(s: State, l: Label) {
    l.Do? ==>
      && !l.action.Crash? && !l.action.ReadStale? && !l.action.CommitRecovery?
      && (l.action == HandlerExit(true) ==>
            match ThreadOf(s, l.thread).pc
            case Running(t, Live) => t in s.rows && s.rows[t].status != RUNNING
            case _ => true)
  }

  ghost predicate UndisturbedRun(cfg: Config, s: State, run: seq<Label>)
    decreases |run|
  {
    run != [] ==> Undisturbed(s, run[0]) && UndisturbedRun(cfg, Next(cfg, s, run[0]), run[1..])
  }

  predicate StageMatchesRow(cfg: Config, rows: Rows, th: Thread) {
    match th.pc
    case Polled(t) => t in rows && rows[t].status == RUNNING
    case Claimed(t) => t in rows && rows[t].status == RUNNING
    case Stamped(t) => t in rows && rows[t].status == RUNNING
    case Running(t, Exited(ok)) => t in rows && (ok ==> rows[t].status != RUNNING)
    case Finished(t) => t in rows && rows[t].status != RUNNING
    case Bumping(t, seen) => t in rows && rows[t].status == FAILED && seen < cfg.maxRetry
    case Requeueing(t) => t in rows && rows[t].status == FAILED
    case Recovering(_) => false
    case _ => true
  }

  /** Nothing is lost: a row nobody holds is PENDING or done. */
  ghost predicate NothingLost(cfg: Config, s: State) {
    && Inv(s)
    && (forall i :: i in s.threads ==> StageMatchesRow(cfg, s.rows, s.threads[i]))
    && (forall t :: t in s.rows ==> Held(s, t) || s.rows[t].status == PENDING || Done(cfg, s.rows[t]))
  }

  lemma ActKeepsStage(cfg: Config, s: State, i: ThreadId, a: Action)
    requires HolderMatchesRow(s.rows, ThreadOf(s, i)) && StageMatchesRow(cfg, s.rows, ThreadOf(s, i))
    requires Undisturbed(s, Do(i, a)) && Act(cfg, s.clock, s.rows, ThreadOf(s, i), a).Some?
    ensures var (rows', th') := Act(cfg, s.clock, s.rows, ThreadOf(s, i), a).value;
            && StageMatchesRow(cfg, rows', th')
            && forall t :: t in s.rows && HeldTask(th'.pc) != Some(t) ==>
                 || rows'[t].status == PENDING
                 || if Holds(ThreadOf(s, i), t) then Done(cfg, rows'[t]) else rows'[t] == s.rows[t]
  {
  }

  lemma StepLosesNothing(cfg: Config, s: State, l: Label)
    requires NothingLost(cfg, s) && Undisturbed(s, l)
    ensures NothingLost(cfg, Next(cfg, s, l))
  {
    var s' := Next(cfg, s, l);
    StepKeepsInv(cfg, s, l);
    if l.Do? && Act(cfg, s.clock, s.rows, ThreadOf(s, l.thread), l.action).Some? {
      var th, th' := ThreadOf(s, l.thread), ThreadOf(s', l.thread);
      ActKeepsStage(cfg, s, l.thread, l.action);
      ActIsLocal(cfg, s.clock, s.rows, th, l.action);
      forall j | j in s'.threads && j != l.thread
        ensures StageMatchesRow(cfg, s'.rows, s'.threads[j])
      {
        if HeldTask(s.threads[j].pc).Some? {
          var t := HeldTask(s.threads[j].pc).value;
          assert Holds(s.threads[j], t) && HolderMatchesRow(s.rows, s.threads[j]);
          assert l.thread in s.threads ==> !Holds(s.threads[l.thread], t);
        }
      }
      forall t | t in s'.rows
        ensures Held(s', t) || s'.rows[t].status == PENDING || Done(cfg, s'.rows[t])
      {
        if Held(s, t) {
          var j :| j in s.threads && Holds(s.threads[j], t);
          assert Holds(s'.threads[j], t) || j == l.thread;
        }
        assert Holds(th', t) ==> Held(s', t) by {
          assert l.thread in s'.threads;
        }
      }
    } else {
      forall t | t in s'.rows
        ensures Held(s', t) || s'.rows[t].status == PENDING || Done(cfg, s'.rows[t])
      {
        if t in s.rows && Held(s, t) {
          var j :| j in s.threads && Holds(s.threads[j], t);
          assert Holds(s'.threads[j], t);
        }
      }
      forall i | i in s'.threads
        ensures StageMatchesRow(cfg, s'.rows, s'.threads[i])
      {
        assert HolderMatchesRow(s.rows, s.threads[i]) && StageMatchesRow(cfg, s.rows, s.threads[i]);
      }
    }
  }

  // ---------------------------------------------------------------------------------------
  // The measure.

  function Rank(pc: Pc): nat {
    match pc
    case Requeueing(_) => 13
    case Polled(_) => 11
    case Claimed(_) => 10
    case Stamped(_) => 9
    case Running(_, Live) => 8
    case Running(_, Exited(_)) => 7
    case Stopping(_, Live) => 6
    case Stopping(_, Exited(_)) => 5
    case Raised(_) => 4
    case Finished(_) => 3
    case Bumping(_, _) => 2
    case _ => 0
  }

  ghost function HolderOf(s: State, t: TaskId): (i: ThreadId)
    requires Held(s, t)
    ensures i in s.threads && Holds(s.threads[i], t)
  {
    var i :| i in s.threads && Holds(s.threads[i], t);
    i
  }

  function RetriesLeft(cfg: Config, row: Row): nat { Max(0, cfg.maxRetry - row.retryCount) }

  ghost function Measure(cfg: Config, s: State, t: TaskId): nat
    requires t in s.rows
  {
    if Held(s, t) then 16 * RetriesLeft(cfg, s.rows[t]) + Rank(s.threads[HolderOf(s, t)].pc)
    else if s.rows[t].status == PENDING then 16 * RetriesLeft(cfg, s.rows[t]) + 12
    else 0
  }

  /** A step of a worker on the task: its claim, or any later stage of its holder or the holder's handler exiting. */
  predicate WorksOn(cfg: Config, s: State, l: Label, t: TaskId) {
    && l.Do? && !l.action.HandlerWrite?
    && Act(cfg, s.clock, s.rows, ThreadOf(s, l.thread), l.action).Some?
    && (Holds(ThreadOf(s, l.thread), t) || Happens(cfg, s, l, Claiming, t))
  }

  lemma HolderMeasure(cfg: Config, s: State, t: TaskId, i: ThreadId)
    requires Inv(s) && t in s.rows && i in s.threads && Holds(s.threads[i], t)
    ensures Measure(cfg, s, t) == 16 * RetriesLeft(cfg, s.rows[t]) + Rank(s.threads[i].pc)
  {
    assert Held(s, t) && HolderOf(s, t) == i;
  }

  /** The holder's own step lowers (retries left, rank) or lets the task go. */
  lemma HolderStepFalls(cfg: Config, now: int, rows: Rows, th: Thread, a: Action, t: TaskId)
    requires HolderMatchesRow(rows, th) && StageMatchesRow(cfg, rows, th) && Holds(th, t)
    requires !a.Crash? && !a.HandlerWrite? && Act(cfg, now, rows, th, a).Some?
    ensures var (rows', th') := Act(cfg, now, rows, th, a).value;
            && rows'.Keys == rows.Keys
            && if Holds(th', t)
               then 16 * RetriesLeft(cfg, rows'[t]) + Rank(th'.pc) < 16 * RetriesLeft(cfg, rows[t]) + Rank(th.pc)
               else rows'[t].status == PENDING ==>
                      16 * RetriesLeft(cfg, rows'[t]) + 12 < 16 * RetriesLeft(cfg, rows[t]) + Rank(th.pc)
  {
  }

  /** Every step of work lowers the measure; nothing else in an undisturbed run moves it. */
  lemma StepMeasure(cfg: Config, s: State, l: Label, t: TaskId)
    requires NothingLost(cfg, s) && Undisturbed(s, l) && t in s.rows
    ensures t in Next(cfg, s, l).rows
    ensures WorksOn(cfg, s, l, t) ==> Measure(cfg, Next(cfg, s, l), t) < Measure(cfg, s, t)
    ensures !WorksOn(cfg, s, l, t) ==> Measure(cfg, Next(cfg, s, l), t) == Measure(cfg, s, t)
  {
    if ThreadActs(cfg, s, l) {
      ThreadStepMeasure(cfg, s, l.thread, l.action, t);
    } else {
      OtherStepMeasure(cfg, s, l, t);
    }
  }

  predicate ThreadActs(cfg: Config, s: State, l: Label) {
    l.Do? && Act(cfg, s.clock, s.rows, ThreadOf(s, l.thread), l.action).Some?
  }

  lemma OtherStepMeasure(cfg: Config, s: State, l: Label, t: TaskId)
    requires NothingLost(cfg, s) && Undisturbed(s, l) && t in s.rows && !ThreadActs(cfg, s, l)
    ensures t in Next(cfg, s, l).rows && !WorksOn(cfg, s, l, t)
    ensures Measure(cfg, Next(cfg, s, l), t) == Measure(cfg, s, t)
  {
    StepLosesNothing(cfg, s, l);
    NoThreadActs(cfg, s, l, t);
    SameThreadsSameMeasure(cfg, s, Next(cfg, s, l), t);
  }

  lemma NoThreadActs(cfg: Config, s: State, l: Label, t: TaskId)
    requires t in s.rows && !ThreadActs(cfg, s, l)
    ensures var s' := Next(cfg, s, l); s'.threads == s.threads && t in s'.rows && s'.rows[t] == s.rows[t]
    ensures !WorksOn(cfg, s, l, t)
  {
  }

  lemma SameThreadsSameMeasure(cfg: Config, s: State, s': State, t: TaskId)
    requires t in s.rows && t in s'.rows && s'.rows[t] == s.rows[t] && s'.threads == s.threads
    requires Inv(s) && Inv(s')
    ensures Measure(cfg, s', t) == Measure(cfg, s, t)
  {
    if Held(s, t) {
      HolderMeasure(cfg, s, t, HolderOf(s, t));
      HolderMeasure(cfg, s', t, HolderOf(s, t));
    } else {
      assert !Held(s', t);
    }
  }

  lemma ThreadStepMeasure(cfg: Config, s: State, i: ThreadId, a: Action, t: TaskId)
    requires NothingLost(cfg, s) && Undisturbed(s, Do(i, a)) && t in s.rows && ThreadActs(cfg, s, Do(i, a))
    ensures t in Next(cfg, s, Do(i, a)).rows
    ensures WorksOn(cfg, s, Do(i, a), t) ==> Measure(cfg, Next(cfg, s, Do(i, a)), t) < Measure(cfg, s, t)
    ensures !WorksOn(cfg, s, Do(i, a), t) ==> Measure(cfg, Next(cfg, s, Do(i, a)), t) == Measure(cfg, s, t)
  {
    var s' := Next(cfg, s, Do(i, a));
    StepLosesNothing(cfg, s, Do(i, a));
    ActIsLocal(cfg, s.clock, s.rows, ThreadOf(s, i), a);
    if Holds(ThreadOf(s, i), t) {
      if a.HandlerWrite? {
        HandlerWriteMeasure(cfg, s, s', i, a, t);
      } else {
        HolderStepMeasure(cfg, s, s', i, a, t);
      }
    } else if Holds(ThreadOf(s', i), t) {
      ClaimMeasure(cfg, s, s', i, a, t);
    } else {
      BystanderStep(cfg, s, s', i, a, t);
    }
  }

  lemma HandlerWriteMeasure(cfg: Config, s: State, s': State, i: ThreadId, a: Action, t: TaskId)
    requires Inv(s) && Inv(s') && t in s.rows && t in s'.rows && s' == Next(cfg, s, Do(i, a))
    requires a.HandlerWrite? && Act(cfg, s.clock, s.rows, ThreadOf(s, i), a).Some? && Holds(ThreadOf(s, i), t)
    ensures Measure(cfg, s', t) == Measure(cfg, s, t)
  {
    HolderMeasure(cfg, s, t, i);
    assert s'.threads[i] == s.threads[i] && s'.rows[t].retryCount == s.rows[t].retryCount;
    HolderMeasure(cfg, s', t, i);
  }

  lemma HolderStepMeasure(cfg: Config, s: State, s': State, i: ThreadId, a: Action, t: TaskId)
    requires Inv(s) && Inv(s') && t in s.rows && t in s'.rows && s' == Next(cfg, s, Do(i, a))
    requires !a.Crash? && !a.HandlerWrite? && Act(cfg, s.clock, s.rows, ThreadOf(s, i), a).Some?
    requires Holds(ThreadOf(s, i), t) && StageMatchesRow(cfg, s.rows, ThreadOf(s, i))
    ensures Measure(cfg, s', t) < Measure(cfg, s, t)
  {
    HolderMeasure(cfg, s, t, i);
    assert HolderMatchesRow(s.rows, s.threads[i]);
    HolderStepFalls(cfg, s.clock, s.rows, s.threads[i], a, t);
    if Holds(s'.threads[i], t) {
      HolderMeasure(cfg, s', t, i);
    } else {
      OnlyHolderLetGo(s, s', i, t);
    }
  }

  lemma ClaimMeasure(cfg: Config, s: State, s': State, i: ThreadId, a: Action, t: TaskId)
    requires Inv(s) && Inv(s') && t in s.rows && t in s'.rows && s' == Next(cfg, s, Do(i, a))
    requires !a.CommitRecovery? && Act(cfg, s.clock, s.rows, ThreadOf(s, i), a).Some?
    requires !Holds(ThreadOf(s, i), t) && Holds(ThreadOf(s', i), t)
    ensures Happens(cfg, s, Do(i, a), Claiming, t) && Measure(cfg, s', t) < Measure(cfg, s, t)
  {
    assert Happens(cfg, s, Do(i, a), Claiming, t);
    HolderMeasure(cfg, s', t, i);
    forall j | j in s.threads
      ensures !Holds(s.threads[j], t)
    {
      assert HolderMatchesRow(s.rows, s.threads[j]);
    }
  }

  lemma OnlyHolderLetGo(s: State, s': State, i: ThreadId, t: TaskId)
    requires Inv(s) && i in s.threads && Holds(s.threads[i], t)
    requires s'.threads.Keys == s.threads.Keys && !Holds(s'.threads[i], t)
    requires forall j :: j in s'.threads && j != i ==> s'.threads[j] == s.threads[j]
    ensures !Held(s', t)
  {
    forall j | j in s'.threads
      ensures !Holds(s'.threads[j], t)
    {
      assert Holds(s.threads[j], t) ==> j == i;
    }
  }

  lemma ActLeavesAlone(cfg: Config, now: int, rows: Rows, th: Thread, a: Action, t: TaskId)
    requires HolderMatchesRow(rows, th) && !Holds(th, t) && t in rows
    requires !a.Crash? && !a.CommitRecovery? && Act(cfg, now, rows, th, a).Some?
    requires !Holds(Act(cfg, now, rows, th, a).value.1, t)
    ensures var (rows', _) := Act(cfg, now, rows, th, a).value; rows'.Keys == rows.Keys && rows'[t] == rows[t]
    ensures !(th.pc == Idle && a == Poll(t) && IsPending(rows, t)) && !(th.pc == Wanting(t) && a.Claim? && IsPending(rows, t))
  {
  }

  /** A thread that neither held nor claimed the task leaves its row, and its holder, alone. */
  lemma BystanderStep(cfg: Config, s: State, s': State, i: ThreadId, a: Action, t: TaskId)
    requires Inv(s) && Inv(s') && t in s.rows && s' == Next(cfg, s, Do(i, a))
    requires !a.Crash? && !a.CommitRecovery? && Act(cfg, s.clock, s.rows, ThreadOf(s, i), a).Some?
    requires !Holds(ThreadOf(s, i), t) && !Holds(ThreadOf(s', i), t)
    ensures t in s'.rows && Measure(cfg, s', t) == Measure(cfg, s, t)
    ensures !WorksOn(cfg, s, Do(i, a), t)
  {
    assert HolderMatchesRow(s.rows, ThreadOf(s, i)) by {
      assert i in s.threads ==> HolderMatchesRow(s.rows, s.threads[i]);
    }
    ActLeavesAlone(cfg, s.clock, s.rows, ThreadOf(s, i), a, t);
    if Held(s, t) {
      var j := HolderOf(s, t);
      HolderMeasure(cfg, s, t, j);
      assert s'.threads[j] == s.threads[j];
      HolderMeasure(cfg, s', t, j);
    } else {
      forall j | j in s'.threads
        ensures !Holds(s'.threads[j], t)
      {
        assert j != i ==> s'.threads[j] == s.threads[j];
      }
    }
  }

  /** The steps of work a run spends on the task. */
  function WorkSteps(cfg: Config, s: State, run: seq<Label>, t: TaskId): nat
    decreases |run|
  {
    if run == [] then 0
    else Once(WorksOn(cfg, s, run[0], t)) + WorkSteps(cfg, Next(cfg, s, run[0]), run[1..], t)
  }

  /** The measure is zero exactly when the task is done and let go. */
  lemma ZeroMeansDone(cfg: Config, s: State, t: TaskId)
    requires NothingLost(cfg, s) && t in s.rows
    ensures Measure(cfg, s, t) == 0 <==> Done(cfg, s.rows[t]) && !Held(s, t)
  {
    if Held(s, t) {
      HolderMeasure(cfg, s, t, HolderOf(s, t));
    }
  }

  /**
   The work spent on a task is bounded by its measure. Once a run has spent that much, the task is
   done; and until then some step of work is always possible (WorkIsAlwaysPossible).
   */
  lemma {:induction false} WorkIsBounded(cfg: Config, s: State, run: seq<Label>, t: TaskId)
    requires NothingLost(cfg, s) && UndisturbedRun(cfg, s, run) && t in s.rows
    ensures NothingLost(cfg, Exec(cfg, s, run)) && t in Exec(cfg, s, run).rows
    ensures WorkSteps(cfg, s, run, t) + Measure(cfg, Exec(cfg, s, run), t) <= Measure(cfg, s, t)
    ensures WorkSteps(cfg, s, run, t) >= Measure(cfg, s, t) ==> Done(cfg, Exec(cfg, s, run).rows[t])
    decreases |run|
  {
    if run == [] {
      ZeroMeansDone(cfg, s, t);
    } else {
      StepLosesNothing(cfg, s, run[0]);
      StepMeasure(cfg, s, run[0], t);
      WorkIsBounded(cfg, Next(cfg, s, run[0]), run[1..], t);
      ZeroMeansDone(cfg, Exec(cfg, s, run), t);
    }
  }

  /** A step that a thread holding a task can take next; its handler, if live, may end. */
  function NextWork(pc: Pc): Action {
    match pc
    case Polled(_) => Recheck
    case Claimed(_) => Stamp("w")
    case Stamped(_) => Launch(true)
    case Running(_, Live) => HandlerExit(false)
    case Running(_, Exited(_)) => Notice
    case Stopping(_, _) => Reap
    case Raised(_) => MarkFailed
    case Finished(_) => Inspect
    case Bumping(_, _) => Bump
    case _ => Requeue
  }

  lemma HolderCanStep(cfg: Config, now: int, rows: Rows, th: Thread)
    requires HeldTask(th.pc).Some? && HolderMatchesRow(rows, th) && StageMatchesRow(cfg, rows, th)
    ensures Act(cfg, now, rows, th, NextWork(th.pc)).Some?
    ensures var a := NextWork(th.pc); !a.HandlerWrite? && !a.Crash? && !a.CommitRecovery?
  {
  }

  /** While a task is not done, its holder, or for an unheld task any idle thread, has a step to take. */
  lemma WorkIsAlwaysPossible(cfg: Config, s: State, t: TaskId, idle: ThreadId) returns (l: Label)
    requires NothingLost(cfg, s) && t in s.rows && ThreadOf(s, idle).pc == Idle
    requires !(Done(cfg, s.rows[t]) && !Held(s, t))
    ensures Undisturbed(s, l) && WorksOn(cfg, s, l, t)
  {
    if Held(s, t) {
      var i := HolderOf(s, t);
      var th := s.threads[i];
      assert HolderMatchesRow(s.rows, th) && StageMatchesRow(cfg, s.rows, th);
      HolderCanStep(cfg, s.clock, s.rows, th);
      l := Do(i, NextWork(th.pc));
    } else {
      l := Do(idle, Poll(t));
    }
  }

  lemma {:induction false} UndisturbedInvAlong(cfg: Config, s: State, run: seq<Label>, t: TaskId)
    requires Inv(s) && UndisturbedRun(cfg, s, run)
    ensures InvAlong(cfg, s, run) && Count(cfg, s, run, Recovery, t) == 0
    decreases |run|
  {
    if run != [] {
      StepKeepsInv(cfg, s, run[0]);
      UndisturbedInvAlong(cfg, Next(cfg, s, run[0]), run[1..], t);
    }
  }

  /** An undisturbed task is executed at most once more than it has retries left. */
  lemma UndisturbedExecutions(cfg: Config, s: State, run: seq<Label>, t: TaskId)
    requires UndisturbedRun(cfg, s, run) && Quiescent(s) && RetriesBounded(cfg, s)
    ensures Count(cfg, s, run, Claiming, t) <= Max(0, cfg.maxRetry) - RetriesOf(s, t) + 1
  {
    UndisturbedInvAlong(cfg, s, run, t);
    ExecutionsAreBounded(cfg, s, run, t);
  }

  // ---------------------------------------------------------------------------------------
  // The one way a task is lost without a crash: its handler reports success but wrote no status.

  /** RUNNING with nobody responsible for it. */
  ghost predicate Stranded(s: State, t: TaskId) {
    t in s.rows && s.rows[t].status == RUNNING && !Held(s, t)
  }

  /** Inspecting a finished task strands it exactly when its row is still RUNNING. */
  lemma InspectStrandsExactlyWhenSilent(cfg: Config, s: State, i: ThreadId, t: TaskId)
    requires Inv(s) && i in s.threads && s.threads[i].pc == Finished(t)
    ensures Stranded(Next(cfg, s, Do(i, Inspect)), t) <==> s.rows[t].status == RUNNING
  {
    assert Holds(s.threads[i], t) && HolderMatchesRow(s.rows, s.threads[i]);
    if s.rows[t].status == RUNNING {
      OnlyHolderLetGo(s, Next(cfg, s, Do(i, Inspect)), i, t);
    }
  }

  /** Only a recovery commit ever picks a stranded task up again. */
  lemma ActLeavesStranded(cfg: Config, now: int, rows: Rows, th: Thread, a: Action, t: TaskId)
    requires HolderMatchesRow(rows, th) && !Holds(th, t) && t in rows && rows[t].status == RUNNING
    requires Act(cfg, now, rows, th, a).Some? && !(a.CommitRecovery? && th.pc.Recovering? && t in th.pc.ids)
    ensures var (rows', th') := Act(cfg, now, rows, th, a).value; t in rows' && rows'[t] == rows[t] && !Holds(th', t)
  {
  }

  lemma StrandedStays(cfg: Config, s: State, l: Label, t: TaskId)
    requires Inv(s) && Stranded(s, t)
    requires !Happens(cfg, s, l, Recovery, t)
    ensures Stranded(Next(cfg, s, l), t)
  {
    var s' := Next(cfg, s, l);
    if ThreadActs(cfg, s, l) {
      assert l.thread in s.threads ==> !Holds(s.threads[l.thread], t) && HolderMatchesRow(s.rows, s.threads[l.thread]);
      ActLeavesStranded(cfg, s.clock, s.rows, ThreadOf(s, l.thread), l.action, t);
    }
    forall j | j in s'.threads
      ensures !Holds(s'.threads[j], t)
    {
      assert j in s.threads ==> !Holds(s.threads[j], t);
    }
  }
}
