/**
 What one recovery commit over a held row can lead to: when a later step can give the task a second
 holder, and when it can give it a second live handler.
 */
module LeaseRecovery {
  import opened TaskTable
  import opened LeaseProtocol
  import opened LeaseExclusion

  /** No recovery commits in this run. */
  predicate NoRecovery(run: seq<Label>) { forall k :: 0 <= k < |run| ==> !(run[k].Do? && run[k].action.CommitRecovery?) }

  lemma {:induction false} InvStaysWithoutRecovery(cfg: Config, s: State, run: seq<Label>)
    requires Inv(s) && NoRecovery(run)
    ensures Inv(Exec(cfg, s, run))
    decreases |run|
  {
    if run != [] {
      StepKeepsInv(cfg, s, run[0]);
      InvStaysWithoutRecovery(cfg, Next(cfg, s, run[0]), run[1..]);
    }
  }

  function Committed(cfg: Config, s: State, i: ThreadId): State { Next(cfg, s, Do(i, CommitRecovery)) }

  // ---------------------------------------------------------------------------------------
  // A second holder.

  /** Every continuation without a further recovery keeps one holder for each task, at all its states. */
  ghost predicate StaysSingle(cfg: Config, s: State) {
    forall run :: NoRecovery(run) ==> SingleHolder(Exec(cfg, s, run))
  }

  /** The committing thread itself can claim a row it wrote over. */
  lemma WrittenRowCanBeClaimed(cfg: Config, s: State, i: ThreadId, j: ThreadId, t: TaskId)
    requires Inv(s) && ThreadOf(s, i).pc.Recovering? && t in ThreadOf(s, i).pc.ids
    requires j in s.threads && Holds(s.threads[j], t)
    ensures i != j && IsPending(Committed(cfg, s, i).rows, t) && ThreadOf(Committed(cfg, s, i), i).pc == Idle
    ensures j in Committed(cfg, s, i).threads && Committed(cfg, s, i).threads[j] == s.threads[j]
  {
    assert HolderMatchesRow(s.rows, s.threads[j]);
  }

  /** From single holders: a commit leaves every continuation with single holders exactly when it writes no held row. */
  lemma SecondHolderExactlyWhen(cfg: Config, s: State, i: ThreadId)
    requires Inv(s) && ThreadOf(s, i).pc.Recovering?
    ensures StaysSingle(cfg, Committed(cfg, s, i)) <==> forall t :: t in ThreadOf(s, i).pc.ids ==> !Held(s, t)
  {
    var s' := Committed(cfg, s, i);
    if t :| t in ThreadOf(s, i).pc.ids && Held(s, t) {
      var j :| j in s.threads && Holds(s.threads[j], t);
      WrittenRowCanBeClaimed(cfg, s, i, j, t);
      var claim := [Do(i, Poll(t))];
      var s2 := Next(cfg, s', claim[0]);
      assert Exec(cfg, s', claim) == Exec(cfg, s2, claim[1..]) == s2;
      assert Holds(s2.threads[i], t) && Holds(s2.threads[j], t);
      assert NoRecovery(claim) && !SingleHolder(Exec(cfg, s', claim));
    } else {
      RecoveryIsSafeExactlyWhenUnheld(cfg, s, i);
      forall run | NoRecovery(run)
        ensures SingleHolder(Exec(cfg, s', run))
      {
        InvStaysWithoutRecovery(cfg, s', run);
      }
    }
  }

  // ---------------------------------------------------------------------------------------
  // A second live handler.

  /** Every continuation without a further recovery keeps the lease, at all its states. */
  ghost predicate StaysExclusive(cfg: Config, s: State) {
    forall run :: NoRecovery(run) ==> LeaseExclusive(Exec(cfg, s, run))
  }

  /** The holder's handler is over, or was never started. */
  predicate PastHandler(pc: Pc) {
    || (pc.Running? && pc.proc.Exited?) || (pc.Stopping? && pc.proc.Exited?) || pc.Raised? || pc.Finished?
  }

  /** The holder can neither run a handler any more nor put the task back for a retry. */
  predicate Spent(cfg: Config, rows: Rows, th: Thread, t: TaskId) {
    Holds(th, t) && PastHandler(th.pc) && t in rows && rows[t].retryCount >= cfg.maxRetry
  }

  /** No handler is ever started for such a task. */
  predicate NeverStarted(cfg: Config, rows: Rows, t: TaskId) {
    cfg.maxTaskRuntime <= 0 || (t in rows && !HasHandler(rows[t].taskType))
  }

  // Safe side: a spent holder does no harm.

  predicate Active(cfg: Config, s: State, i: ThreadId, t: TaskId) {
    i in s.threads && Holds(s.threads[i], t) && !Spent(cfg, s.rows, s.threads[i], t)
  }

  predicate AboutToRequeue(pc: Pc, t: TaskId) { (pc.Bumping? || pc.Requeueing?) && pc.task == t }

  /** At most one holder that is not spent, whose row is not PENDING; and one that will requeue is the only holder. */
  ghost predicate Tame(cfg: Config, s: State, t: TaskId) {
    && (forall i :: i in s.threads && Holds(s.threads[i], t) ==> t in s.rows)
    && (forall i, j :: Active(cfg, s, i, t) && Active(cfg, s, j, t) ==> i == j)
    && (forall i :: Active(cfg, s, i, t) ==> s.rows[t].status != PENDING)
    && (forall i, j :: i in s.threads && j in s.threads && AboutToRequeue(s.threads[i].pc, t) && Holds(s.threads[j], t) ==> i == j)
  }

  ghost predicate OneLive(s: State, t: TaskId) {
    forall i, j :: i in s.threads && j in s.threads && RunsHandler(s.threads[i], t) && RunsHandler(s.threads[j], t) ==> i == j
  }

  lemma TameHasOneLive(cfg: Config, s: State, t: TaskId)
    requires Tame(cfg, s, t)
    ensures OneLive(s, t)
  {
    forall i, j | i in s.threads && j in s.threads && RunsHandler(s.threads[i], t) && RunsHandler(s.threads[j], t)
      ensures i == j
    {
      assert Active(cfg, s, i, t) && Active(cfg, s, j, t);
    }
  }

  /** What a step does to a task, as seen by Tame. */
  predicate LocalFor(cfg: Config, rows: Rows, th: Thread, rows': Rows, th': Thread, t: TaskId) {
    && (t in rows ==> t in rows' && rows'[t].taskType == rows[t].taskType)
    && (t in rows' ==> t in rows)
    // without holding or claiming the task: nothing happens to it
    && (!Holds(th, t) && !Holds(th', t) && t in rows ==> rows'[t] == rows[t])
    // a claim
    && (!Holds(th, t) && Holds(th', t) ==>
          IsPending(rows, t) && rows'[t].status == RUNNING && rows'[t].retryCount == rows[t].retryCount && th'.pc != Requeueing(t)
          && !th'.pc.Bumping?)
    // a holder's step: only a requeue makes the row PENDING, only a bump changes the count
    && (Holds(th, t) && t in rows && rows'[t].status == PENDING ==>
          rows[t].status == PENDING || (AboutToRequeue(th.pc, t) && !Holds(th', t)))
    && (Holds(th, t) && t in rows && !AboutToRequeue(th.pc, t) ==> rows'[t].retryCount == rows[t].retryCount)
    && (AboutToRequeue(th'.pc, t) ==> AboutToRequeue(th.pc, t) || (t in rows && rows[t].retryCount < cfg.maxRetry && Holds(th, t)))
    && (Spent(cfg, rows, th, t) && Holds(th', t) ==> Spent(cfg, rows', th', t))
  }

  lemma ActIsLocalFor(cfg: Config, now: int, rows: Rows, th: Thread, a: Action, t: TaskId)
    requires !a.CommitRecovery? && Act(cfg, now, rows, th, a).Some?
    ensures var (rows', th') := Act(cfg, now, rows, th, a).value; LocalFor(cfg, rows, th, rows', th', t)
  {
  }

  /** A holder that will requeue is not spent. */
  lemma RequeuerIsActive(cfg: Config, s: State, i: ThreadId, t: TaskId)
    requires i in s.threads && AboutToRequeue(s.threads[i].pc, t)
    ensures Active(cfg, s, i, t)
  {
  }

  /** Thread k moves; every other thread stays as it was. */
  predicate Moved(s: State, s': State, k: ThreadId) {
    && s'.threads.Keys == s.threads.Keys + {k}
    && forall j :: j in s.threads && j != k ==> s'.threads[j] == s.threads[j]
  }

  lemma BystanderKeepsTame(cfg: Config, s: State, s': State, k: ThreadId, t: TaskId)
    requires Tame(cfg, s, t) && Moved(s, s', k)
    requires !Holds(ThreadOf(s, k), t) && !Holds(s'.threads[k], t)
    requires (t in s.rows <==> t in s'.rows) && (t in s.rows ==> s'.rows[t] == s.rows[t])
    ensures Tame(cfg, s', t)
  {
    forall j | j in s'.threads && Holds(s'.threads[j], t)
      ensures j in s.threads && s'.threads[j] == s.threads[j] && j != k
    {
    }
    forall j | Active(cfg, s', j, t)
      ensures Active(cfg, s, j, t)
    {
    }
    forall i, j | i in s'.threads && j in s'.threads && AboutToRequeue(s'.threads[i].pc, t) && Holds(s'.threads[j], t)
      ensures i == j
    {
      assert Holds(s'.threads[i], t);
    }
  }

  lemma ClaimKeepsTame(cfg: Config, s: State, s': State, k: ThreadId, t: TaskId)
    requires Tame(cfg, s, t) && Moved(s, s', k) && IsPending(s.rows, t) && t in s'.rows
    requires !Holds(ThreadOf(s, k), t) && Holds(s'.threads[k], t) && !AboutToRequeue(s'.threads[k].pc, t)
    requires s'.rows[t].status == RUNNING && s'.rows[t].retryCount == s.rows[t].retryCount
    ensures Tame(cfg, s', t)
  {
    forall j | Active(cfg, s', j, t)
      ensures j == k
    {
      assert j != k ==> Active(cfg, s, j, t);
    }
    forall i | i in s'.threads
      ensures !AboutToRequeue(s'.threads[i].pc, t)
    {
      if i != k && AboutToRequeue(s.threads[i].pc, t) {
        RequeuerIsActive(cfg, s, i, t);
        assert false;
      }
    }
  }

  lemma HolderKeepsTame(cfg: Config, s: State, s': State, k: ThreadId, t: TaskId)
    requires Tame(cfg, s, t) && Moved(s, s', k) && k in s.threads && Holds(s.threads[k], t) && t in s.rows && t in s'.rows
    requires LocalFor(cfg, s.rows, s.threads[k], s'.rows, s'.threads[k], t)
    ensures Tame(cfg, s', t)
  {
    var th, th' := s.threads[k], s'.threads[k];
    if AboutToRequeue(th.pc, t) {
      forall j | j in s'.threads && Holds(s'.threads[j], t)
        ensures j == k
      {
      }
      if Holds(th', t) {
        RequeuerIsActive(cfg, s, k, t);
        assert s.rows[t].status != PENDING;
      }
    } else {
      SpentStaySpent(cfg, s, s', k, t);
      forall i, j | i in s'.threads && j in s'.threads && AboutToRequeue(s'.threads[i].pc, t) && Holds(s'.threads[j], t)
        ensures i == j
      {
        OnlyHolderRequeues(cfg, s, s', k, t, i, j);
      }
    }
  }

  /** A step that leaves the retry count alone makes no spent holder active again. */
  lemma SpentStaySpent(cfg: Config, s: State, s': State, k: ThreadId, t: TaskId)
    requires Moved(s, s', k) && k in s.threads && Holds(s.threads[k], t) && t in s.rows && t in s'.rows
    requires !AboutToRequeue(s.threads[k].pc, t)
    requires LocalFor(cfg, s.rows, s.threads[k], s'.rows, s'.threads[k], t)
    ensures forall j :: Active(cfg, s', j, t) ==> Active(cfg, s, j, t)
  {
    forall j | Active(cfg, s', j, t)
      ensures Active(cfg, s, j, t)
    {
      assert j != k ==> s'.threads[j] == s.threads[j];
    }
  }

  lemma OnlyHolderRequeues(cfg: Config, s: State, s': State, k: ThreadId, t: TaskId, i: ThreadId, j: ThreadId)
    requires Tame(cfg, s, t) && Moved(s, s', k) && k in s.threads && Holds(s.threads[k], t) && t in s.rows && t in s'.rows
    requires !AboutToRequeue(s.threads[k].pc, t)
    requires LocalFor(cfg, s.rows, s.threads[k], s'.rows, s'.threads[k], t)
    requires i in s'.threads && j in s'.threads && AboutToRequeue(s'.threads[i].pc, t) && Holds(s'.threads[j], t)
    ensures i == j
  {
    assert i == k;
    // with retries left nobody is spent, so any other holder would be active beside k
    assert Active(cfg, s, k, t) && Active(cfg, s, j, t);
  }

  lemma StepKeepsTame(cfg: Config, s: State, l: Label, t: TaskId)
    requires Tame(cfg, s, t) && !(l.Do? && l.action.CommitRecovery?)
    ensures Tame(cfg, Next(cfg, s, l), t)
  {
    var s' := Next(cfg, s, l);
    match l
    case Create(_, _) =>
      assert forall i :: Active(cfg, s', i, t) ==> Active(cfg, s, i, t);
    case Tick(_) =>
      assert forall i :: Active(cfg, s', i, t) ==> Active(cfg, s, i, t);
    case Do(k, a) =>
      var th := ThreadOf(s, k);
      if Act(cfg, s.clock, s.rows, th, a).Some? {
        ActIsLocalFor(cfg, s.clock, s.rows, th, a, t);
        assert Moved(s, s', k);
        if Holds(th, t) {
          assert k in s.threads;
          HolderKeepsTame(cfg, s, s', k, t);
        } else if Holds(s'.threads[k], t) {
          ClaimKeepsTame(cfg, s, s', k, t);
        } else {
          BystanderKeepsTame(cfg, s, s', k, t);
        }
      }
  }

  lemma {:induction false} TameStays(cfg: Config, s: State, run: seq<Label>, t: TaskId)
    requires Tame(cfg, s, t) && NoRecovery(run)
    ensures Tame(cfg, Exec(cfg, s, run), t)
    decreases |run|
  {
    if run != [] {
      StepKeepsTame(cfg, s, run[0], t);
      TameStays(cfg, Next(cfg, s, run[0]), run[1..], t);
    }
  }

  /** Where no handler is ever started, none becomes live. */
  predicate Unstarted(cfg: Config, s: State, t: TaskId) { NeverStarted(cfg, s.rows, t) }

  lemma ActStartsNone(cfg: Config, now: int, rows: Rows, th: Thread, a: Action, t: TaskId)
    requires NeverStarted(cfg, rows, t) && Act(cfg, now, rows, th, a).Some?
    ensures var (rows', th') := Act(cfg, now, rows, th, a).value;
            NeverStarted(cfg, rows', t) && (RunsHandler(th', t) ==> RunsHandler(th, t))
  {
  }

  lemma StepStartsNone(cfg: Config, s: State, l: Label, t: TaskId)
    requires Unstarted(cfg, s, t) && OneLive(s, t)
    ensures Unstarted(cfg, Next(cfg, s, l), t) && OneLive(Next(cfg, s, l), t)
  {
    var s' := Next(cfg, s, l);
    if l.Do? && Act(cfg, s.clock, s.rows, ThreadOf(s, l.thread), l.action).Some? {
      ActStartsNone(cfg, s.clock, s.rows, ThreadOf(s, l.thread), l.action, t);
      forall i | i in s'.threads && RunsHandler(s'.threads[i], t)
        ensures i in s.threads && RunsHandler(s.threads[i], t)
      {
      }
    }
  }

  lemma {:induction false} NoneIsStarted(cfg: Config, s: State, run: seq<Label>, t: TaskId)
    requires Unstarted(cfg, s, t) && OneLive(s, t)
    ensures OneLive(Exec(cfg, s, run), t)
    decreases |run|
  {
    if run != [] {
      StepStartsNone(cfg, s, run[0], t);
      NoneIsStarted(cfg, Next(cfg, s, run[0]), run[1..], t);
    }
  }

  // Unsafe side: any other holder can get to a second live handler.

  /** How many steps the holder is from running a handler, its present one or that of its retry. */
  function StepsToHandler(pc: Pc): nat {
    match pc
    case Running(_, Live) => 0
    case Stopping(_, Live) => 0
    case Stamped(_) => 1
    case Claimed(_) => 2
    case Polled(_) => 3
    case Idle => 4
    case Requeueing(_) => 5
    case Bumping(_, _) => 6
    case Finished(_) => 7
    case Raised(_) => 8
    case Running(_, Exited(_)) => 9
    case Stopping(_, Exited(_)) => 9
    case _ => 10
  }

  /** Thread i runs the task's handler, and thread j holds the task, or is free to claim it. */
  ghost predicate SecondInSight(cfg: Config, s: State, i: ThreadId, j: ThreadId, t: TaskId) {
    && cfg.maxTaskRuntime > 0 && t in s.rows && HasHandler(s.rows[t].taskType)
    && i != j && i in s.threads && s.threads[i].pc == Running(t, Live) && j in s.threads
    && (Holds(s.threads[j], t) || (s.threads[j].pc == Idle && s.rows[t].status == PENDING))
    && (s.threads[j].pc.Polled? ==> s.rows[t].status == RUNNING)
    && (PastHandler(s.threads[j].pc) ==> s.rows[t].retryCount < cfg.maxRetry)
  }

  /** The next step towards it: of the running handler, which fails where a retry must become due, or of thread j. */
  function Towards(i: ThreadId, j: ThreadId, t: TaskId, s: State): seq<Label>
    requires j in s.threads
  {
    match s.threads[j].pc
    case Stamped(_) => [Do(j, Launch(true))]
    case Claimed(_) => [Do(j, Stamp("w"))]
    case Polled(_) => [Do(j, Recheck)]
    case Idle => [Do(j, Poll(t))]
    case Requeueing(_) => [Do(j, Requeue)]
    case Bumping(_, _) => [Do(j, Bump)]
    case Finished(_) => [Do(i, HandlerWrite(false)), Do(j, Inspect)]
    case Raised(_) => [Do(j, MarkFailed)]
    case Running(_, _) => [Do(j, Notice)]
    case _ => [Do(j, Reap)]
  }

  lemma OneLabel(cfg: Config, s: State, l: Label)
    ensures Exec(cfg, s, [l]) == Next(cfg, s, l)
  {
    assert [l][1..] == [];
  }

  lemma TwoLabels(cfg: Config, s: State, l: Label, k: Label)
    ensures Exec(cfg, s, [l, k]) == Next(cfg, Next(cfg, s, l), k)
  {
    assert [l, k][1..] == [k];
    OneLabel(cfg, Next(cfg, s, l), k);
  }

  /** Thread j's own step, from any stage but a finished handler. */
  lemma OwnStepTowards(cfg: Config, s: State, i: ThreadId, j: ThreadId, t: TaskId)
    requires SecondInSight(cfg, s, i, j, t) && StepsToHandler(s.threads[j].pc) > 0 && !s.threads[j].pc.Finished?
    ensures var s' := Next(cfg, s, Towards(i, j, t, s)[0]);
            SecondInSight(cfg, s', i, j, t) && StepsToHandler(s'.threads[j].pc) < StepsToHandler(s.threads[j].pc)
  {
    OwnStepKeepsOthers(cfg, s, i, j, t);
  }

  lemma OwnStepKeepsOthers(cfg: Config, s: State, i: ThreadId, j: ThreadId, t: TaskId)
    requires SecondInSight(cfg, s, i, j, t) && StepsToHandler(s.threads[j].pc) > 0 && !s.threads[j].pc.Finished?
    ensures var s' := Next(cfg, s, Towards(i, j, t, s)[0]);
            && i in s'.threads && s'.threads[i] == s.threads[i] && j in s'.threads
            && t in s'.rows && s'.rows[t].taskType == s.rows[t].taskType
  {
  }

  /** The running handler writes FAILED, and thread j finds its own attempt due for a retry. */
  lemma RetryTowards(cfg: Config, s: State, i: ThreadId, j: ThreadId, t: TaskId)
    requires SecondInSight(cfg, s, i, j, t) && s.threads[j].pc.Finished?
    ensures var s' := Next(cfg, Next(cfg, s, Do(i, HandlerWrite(false))), Do(j, Inspect));
            SecondInSight(cfg, s', i, j, t) && s'.threads[j].pc.Bumping?
  {
    var written := Next(cfg, s, Do(i, HandlerWrite(false)));
    assert written.threads[j] == s.threads[j] && written.rows[t].status == FAILED;
  }

  lemma StepTowards(cfg: Config, s: State, i: ThreadId, j: ThreadId, t: TaskId)
    requires SecondInSight(cfg, s, i, j, t) && StepsToHandler(s.threads[j].pc) > 0
    ensures var s' := Exec(cfg, s, Towards(i, j, t, s));
            SecondInSight(cfg, s', i, j, t) && StepsToHandler(s'.threads[j].pc) < StepsToHandler(s.threads[j].pc)
    ensures NoRecovery(Towards(i, j, t, s))
  {
    var run := Towards(i, j, t, s);
    if s.threads[j].pc.Finished? {
      TwoLabels(cfg, s, run[0], run[1]);
      RetryTowards(cfg, s, i, j, t);
    } else {
      OneLabel(cfg, s, run[0]);
      OwnStepTowards(cfg, s, i, j, t);
    }
  }

  /** Thread j does reach its handler while thread i's is still live. */
  lemma {:induction false} SecondHandlerIsReached(cfg: Config, s: State, i: ThreadId, j: ThreadId, t: TaskId) returns (run: seq<Label>)
    requires SecondInSight(cfg, s, i, j, t)
    ensures NoRecovery(run) && !LeaseExclusive(Exec(cfg, s, run))
    decreases StepsToHandler(s.threads[j].pc)
  {
    if StepsToHandler(s.threads[j].pc) == 0 {
      run := [];
      assert RunsHandler(s.threads[i], t) && RunsHandler(s.threads[j], t);
    } else {
      StepTowards(cfg, s, i, j, t);
      var first := Towards(i, j, t, s);
      var rest := SecondHandlerIsReached(cfg, Exec(cfg, s, first), i, j, t);
      run := first + rest;
      ExecAppend(cfg, s, first, rest);
    }
  }

  /** The holder of a written row that lets the lease survive. */
  predicate Harmless(cfg: Config, rows: Rows, th: Thread, t: TaskId) {
    Holds(th, t) ==> NeverStarted(cfg, rows, t) || Spent(cfg, rows, th, t)
  }

  lemma HarmfulHolderBreaksTheLease(cfg: Config, s: State, i: ThreadId, j: ThreadId, t: TaskId)
    requires Inv(s) && ThreadOf(s, i).pc.Recovering? && t in ThreadOf(s, i).pc.ids
    requires j in s.threads && !Harmless(cfg, s.rows, s.threads[j], t)
    ensures !StaysExclusive(cfg, Committed(cfg, s, i))
  {
    var s1 := Committed(cfg, s, i);
    assert HolderMatchesRow(s.rows, s.threads[j]);
    WrittenRowCanBeClaimed(cfg, s, i, j, t);
    PollAndLaunchRuns(cfg, s1, t, i);
    var launch := PollAndLaunch(t, i);
    var s2 := Exec(cfg, s1, launch);
    PollAndLaunchKeepsCount(cfg, s1, t, i);
    var rest := SecondHandlerIsReached(cfg, s2, i, j, t);
    ExecAppend(cfg, s1, launch, rest);
    assert NoRecovery(launch + rest);
  }

  lemma PollAndLaunchKeepsCount(cfg: Config, s: State, t: TaskId, i: ThreadId)
    requires cfg.maxTaskRuntime > 0
    requires ThreadOf(s, i).pc == Idle && IsPending(s.rows, t) && HasHandler(s.rows[t].taskType)
    ensures var s' := Exec(cfg, s, PollAndLaunch(t, i));
            t in s'.rows && s'.rows[t].retryCount == s.rows[t].retryCount && s'.rows[t].status == RUNNING
  {
    var run := PollAndLaunch(t, i);
    var s1 := Next(cfg, s, run[0]);
    var s2 := Next(cfg, s1, run[1]);
    var s3 := Next(cfg, s2, run[2]);
    var s4 := Next(cfg, s3, run[3]);
    assert Exec(cfg, s, run) == Exec(cfg, s1, run[1..]) == Exec(cfg, s2, run[2..]);
    assert Exec(cfg, s2, run[2..]) == Exec(cfg, s3, run[3..]) == Exec(cfg, s4, run[4..]) == s4;
  }

  /** What the commit leaves of each task. */
  lemma CommitLeavesTame(cfg: Config, s: State, i: ThreadId, t: TaskId)
    requires Inv(s) && ThreadOf(s, i).pc.Recovering?
    requires t in ThreadOf(s, i).pc.ids ==> forall j :: j in s.threads ==> Holds(s.threads[j], t) ==> Spent(cfg, s.rows, s.threads[j], t)
    ensures Tame(cfg, Committed(cfg, s, i), t)
  {
    var s' := Committed(cfg, s, i);
    forall j | j in s'.threads && Holds(s'.threads[j], t)
      ensures j in s.threads && s'.threads[j] == s.threads[j] && HolderMatchesRow(s.rows, s.threads[j])
    {
    }
    forall j | Active(cfg, s', j, t)
      ensures t !in ThreadOf(s, i).pc.ids && s'.rows[t] == s.rows[t]
    {
    }
  }

  lemma CommitKeepsOneLive(cfg: Config, s: State, i: ThreadId, t: TaskId)
    requires Inv(s) && ThreadOf(s, i).pc.Recovering?
    ensures OneLive(Committed(cfg, s, i), t)
    ensures NeverStarted(cfg, s.rows, t) ==> Unstarted(cfg, Committed(cfg, s, i), t)
  {
    var s' := Committed(cfg, s, i);
    forall j, k | j in s'.threads && k in s'.threads && RunsHandler(s'.threads[j], t) && RunsHandler(s'.threads[k], t)
      ensures j == k
    {
      assert Holds(s.threads[j], t) && Holds(s.threads[k], t);
    }
  }

  lemma HarmlessHoldersKeepTheLease(cfg: Config, s: State, i: ThreadId, run: seq<Label>)
    requires Inv(s) && ThreadOf(s, i).pc.Recovering? && NoRecovery(run)
    requires forall j, t :: j in s.threads && t in ThreadOf(s, i).pc.ids ==> Harmless(cfg, s.rows, s.threads[j], t)
    ensures LeaseExclusive(Exec(cfg, Committed(cfg, s, i), run))
  {
    var s' := Committed(cfg, s, i);
    var end := Exec(cfg, s', run);
    forall t
      ensures OneLive(end, t)
    {
      if NeverStarted(cfg, s.rows, t) {
        CommitKeepsOneLive(cfg, s, i, t);
        NoneIsStarted(cfg, s', run, t);
      } else {
        CommitLeavesTame(cfg, s, i, t);
        TameStays(cfg, s', run, t);
        TameHasOneLive(cfg, end, t);
      }
    }
    forall j, k, t | j in end.threads && k in end.threads && RunsHandler(end.threads[j], t) && RunsHandler(end.threads[k], t)
      ensures j == k
    {
      assert OneLive(end, t);
    }
  }

  /**
   From single holders: after a commit, no continuation ever gives a task two live handlers exactly when every
   holder of a row it writes is past its handler with no retry left, or holds a task whose handler is never started.
   */
  lemma SecondHandlerExactlyWhen(cfg: Config, s: State, i: ThreadId)
    requires Inv(s) && ThreadOf(s, i).pc.Recovering?
    ensures StaysExclusive(cfg, Committed(cfg, s, i)) <==>
              forall j, t :: j in s.threads && t in ThreadOf(s, i).pc.ids ==> Harmless(cfg, s.rows, s.threads[j], t)
  {
    if j, t :| j in s.threads && t in ThreadOf(s, i).pc.ids && !Harmless(cfg, s.rows, s.threads[j], t) {
      HarmfulHolderBreaksTheLease(cfg, s, i, j, t);
    } else {
      forall run | NoRecovery(run)
        ensures LeaseExclusive(Exec(cfg, Committed(cfg, s, i), run))
      {
        HarmlessHoldersKeepTheLease(cfg, s, i, run);
      }
    }
  }
}
