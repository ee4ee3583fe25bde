/**
 Lease exclusion: when no thread holds a task longer than the recovery age and each recovery commit
 still finds its rows unclaimed, no task ever has two live handler processes.
 */
module LeaseExclusion {
  import opened Wrappers
  import opened TaskTable
  import opened LeaseProtocol

  // ---------------------------------------------------------------------------------------
  // The single-holder invariant survives a run exactly when recovery commits spare held rows.

  /** The single-holder invariant holds at every point of the run. */
  ghost predicate InvAlong(cfg: Config, s: State, run: seq<Label>)
    decreases |run|
  {
    Inv(s) && (run != [] ==> InvAlong(cfg, Next(cfg, s, run[0]), run[1..]))
  }

  /** A recovery commit writes no row that is held. */
  ghost predicate SparesHeldRows(s: State, l: Label) {
    l.Do? && l.action.CommitRecovery? && ThreadOf(s, l.thread).pc.Recovering? ==>
      forall t :: t in ThreadOf(s, l.thread).pc.ids ==> !Held(s, t)
  }

  ghost predicate RecoveriesSpareHeldRows(cfg: Config, s: State, run: seq<Label>)
    decreases |run|
  {
    run != [] ==> SparesHeldRows(s, run[0]) && RecoveriesSpareHeldRows(cfg, Next(cfg, s, run[0]), run[1..])
  }

  lemma StepKeepsInvExactlyWhen(cfg: Config, s: State, l: Label)
    requires Inv(s)
    ensures Inv(Next(cfg, s, l)) <==> SparesHeldRows(s, l)
  {
    if l.Do? && l.action.CommitRecovery? {
      if ThreadOf(s, l.thread).pc.Recovering? {
        RecoveryIsSafeExactlyWhenUnheld(cfg, s, l.thread);
      }
    } else {
      StepKeepsInv(cfg, s, l);
    }
  }

  /** Whatever else happens, and at whatever times: every state of the run has single holders exactly when every recovery spares held rows. */
  lemma {:induction false} SingleHoldersExactlyWhen(cfg: Config, s: State, run: seq<Label>)
    requires Inv(s)
    ensures InvAlong(cfg, s, run) <==> RecoveriesSpareHeldRows(cfg, s, run)
    decreases |run|
  {
    if run != [] {
      StepKeepsInvExactlyWhen(cfg, s, run[0]);
      if Inv(Next(cfg, s, run[0])) {
        SingleHoldersExactlyWhen(cfg, Next(cfg, s, run[0]), run[1..]);
      }
    }
  }

  lemma {:induction false} InvAtTheEnd(cfg: Config, s: State, run: seq<Label>)
    requires InvAlong(cfg, s, run)
    ensures Inv(Exec(cfg, s, run))
    decreases |run|
  {
    if run != [] {
      InvAtTheEnd(cfg, Next(cfg, s, run[0]), run[1..]);
    }
  }

  // ---------------------------------------------------------------------------------------
  // Holding a task no longer than the recovery age is enough.

  /** Nobody has held a task for longer than the age at which its row is recovered. */
  predicate HoldsAreYoung(cfg: Config, s: State) {
    forall i :: i in s.threads && HeldTask(s.threads[i].pc).Some? ==> s.clock - s.threads[i].claimedAt <= StaleAfterMs(cfg)
  }

  /** A recovery commit finds each row it read still stale, or already put back. */
  predicate CurrentRecovery(cfg: Config, s: State, l: Label) {
    l.Do? && l.action.CommitRecovery? && ThreadOf(s, l.thread).pc.Recovering? ==>
      forall t :: t in ThreadOf(s, l.thread).pc.ids && t in s.rows ==>
                    s.rows[t].status == PENDING || IsStale(s.rows[t], s.clock, StaleAfterMs(cfg))
  }

  /** Time never takes a hold past the recovery age, and no recovery is late. */
  ghost predicate Punctual(cfg: Config, s: State, run: seq<Label>)
    decreases |run|
  {
    run != [] ==>
      && (run[0].Tick? ==> HoldsAreYoung(cfg, Next(cfg, s, run[0])))
      && CurrentRecovery(cfg, s, run[0])
      && Punctual(cfg, Next(cfg, s, run[0]), run[1..])
  }

  /** A row held for no longer than that is not stale. */
  lemma HeldRowsAreFresh(cfg: Config, s: State, t: TaskId)
    requires Inv(s) && HoldsAreYoung(cfg, s) && Held(s, t)
    ensures t in s.rows && s.rows[t].status != PENDING && !IsStale(s.rows[t], s.clock, StaleAfterMs(cfg))
  {
    var i :| i in s.threads && Holds(s.threads[i], t);
    assert HolderMatchesRow(s.rows, s.threads[i]);
  }

  lemma ClaimsAreYoung(cfg: Config, now: int, rows: Rows, th: Thread, a: Action)
    requires HeldTask(th.pc).Some? ==> now - th.claimedAt <= StaleAfterMs(cfg)
    requires Act(cfg, now, rows, th, a).Some?
    ensures var th' := Act(cfg, now, rows, th, a).value.1; HeldTask(th'.pc).Some? ==> now - th'.claimedAt <= StaleAfterMs(cfg)
  {
  }

  lemma StepKeepsHoldsYoung(cfg: Config, s: State, l: Label)
    requires HoldsAreYoung(cfg, s) && (l.Tick? ==> HoldsAreYoung(cfg, Next(cfg, s, l)))
    ensures HoldsAreYoung(cfg, Next(cfg, s, l))
  {
    if l.Do? && Act(cfg, s.clock, s.rows, ThreadOf(s, l.thread), l.action).Some? {
      ClaimsAreYoung(cfg, s.clock, s.rows, ThreadOf(s, l.thread), l.action);
    }
  }

  lemma YoungHoldsAreSpared(cfg: Config, s: State, l: Label)
    requires Inv(s) && HoldsAreYoung(cfg, s) && CurrentRecovery(cfg, s, l)
    ensures SparesHeldRows(s, l)
  {
    if l.Do? && l.action.CommitRecovery? && ThreadOf(s, l.thread).pc.Recovering? {
      forall t | t in ThreadOf(s, l.thread).pc.ids
        ensures !Held(s, t)
      {
        if Held(s, t) {
          HeldRowsAreFresh(cfg, s, t);
        }
      }
    }
  }

  lemma {:induction false} PunctualInvAlong(cfg: Config, s: State, run: seq<Label>)
    requires Inv(s) && HoldsAreYoung(cfg, s) && Punctual(cfg, s, run)
    ensures InvAlong(cfg, s, run)
    decreases |run|
  {
    if run != [] {
      YoungHoldsAreSpared(cfg, s, run[0]);
      StepKeepsInvExactlyWhen(cfg, s, run[0]);
      StepKeepsHoldsYoung(cfg, s, run[0]);
      PunctualInvAlong(cfg, Next(cfg, s, run[0]), run[1..]);
    }
  }

  /**
   From any table: if each holder goes from its claim to its last status write within the task's
   runtime plus the recovery grace, and no recovery commits late, no task ever has two live handlers.
   */
  lemma LeaseExclusionHolds(cfg: Config, s: State, run: seq<Label>)
    requires Quiescent(s) && Punctual(cfg, s, run)
    ensures LeaseExclusive(Exec(cfg, s, run))
  {
    PunctualInvAlong(cfg, s, run);
    InvAtTheEnd(cfg, s, run);
    InvGivesExclusion(Exec(cfg, s, run));
  }

  // ---------------------------------------------------------------------------------------
  // Stage by stage: what each part of a hold may take.

  /**
   How long (in ms) a thread may linger outside the handler: from its claim to the launch, from
   the runtime deadline to acting on it, and from the handler's end to the last status write.
   */
  datatype Latency = Latency(prepare: nat, wake: nat, finish: nat)

  /** The slack the recovery grace leaves once both stop graces are spent. */
  predicate WithinGrace(cfg: Config, lat: Latency) {
    lat.prepare + lat.wake + 2 * PROCESS_STOP_GRACE_MS + lat.finish <= StaleGraceMs(cfg)
  }

  /** The latest time at which a thread may still be in its present stage. */
  function DueBy(cfg: Config, lat: Latency, th: Thread): Option<int> {
    match th.pc
    case Polled(_) => Some(th.claimedAt + lat.prepare)
    case Claimed(_) => Some(th.claimedAt + lat.prepare)
    case Stamped(_) => Some(th.claimedAt + lat.prepare)
    case Running(_, _) => Some(th.since + 1000 * cfg.maxTaskRuntime + lat.wake)
    case Stopping(_, _) => Some(th.since + 2 * PROCESS_STOP_GRACE_MS)
    case Raised(_) => Some(th.since + lat.finish)
    case Finished(_) => Some(th.since + lat.finish)
    case Bumping(_, _) => Some(th.since + lat.finish)
    case Requeueing(_) => Some(th.since + lat.finish)
    case _ => None
  }

  /** Time passes only while nobody is overdue. */
  predicate PromptTick(cfg: Config, lat: Latency, s: State, l: Label) {
    l.Tick? ==>
      forall i :: i in s.threads && DueBy(cfg, lat, s.threads[i]).Some? ==>
                    s.clock + l.elapsed <= DueBy(cfg, lat, s.threads[i]).value
  }

  ghost predicate Disciplined(cfg: Config, lat: Latency, s: State, run: seq<Label>)
    decreases |run|
  {
    run != [] ==>
      && PromptTick(cfg, lat, s, run[0])
      && CurrentRecovery(cfg, s, run[0])
      && Disciplined(cfg, lat, Next(cfg, s, run[0]), run[1..])
  }

  /** Each stage began in time, so the whole hold stays inside the recovery age. */
  predicate OnTime(cfg: Config, lat: Latency, now: int, th: Thread) {
    && (th.pc.Running? || th.pc.Stopping? ==> cfg.maxTaskRuntime > 0)
    && (th.pc.Running? ==> th.since <= th.claimedAt + lat.prepare)
    && (th.pc.Stopping? ==> th.since <= th.claimedAt + lat.prepare + 1000 * cfg.maxTaskRuntime + lat.wake)
    && (th.pc.Raised? || th.pc.Finished? || th.pc.Bumping? || th.pc.Requeueing? ==>
          th.since <= th.claimedAt + lat.prepare + 1000 * Max(0, cfg.maxTaskRuntime) + lat.wake
                      + 2 * PROCESS_STOP_GRACE_MS)
    && (DueBy(cfg, lat, th).Some? ==> now <= DueBy(cfg, lat, th).value)
  }

  ghost predicate AllOnTime(cfg: Config, lat: Latency, s: State) {
    forall i :: i in s.threads ==> OnTime(cfg, lat, s.clock, s.threads[i])
  }

  lemma ActKeepsOnTime(cfg: Config, lat: Latency, now: int, rows: Rows, th: Thread, a: Action)
    requires OnTime(cfg, lat, now, th) && Act(cfg, now, rows, th, a).Some?
    ensures OnTime(cfg, lat, now, Act(cfg, now, rows, th, a).value.1)
  {
  }

  lemma StepKeepsOnTime(cfg: Config, lat: Latency, s: State, l: Label)
    requires AllOnTime(cfg, lat, s) && PromptTick(cfg, lat, s, l)
    ensures AllOnTime(cfg, lat, Next(cfg, s, l))
  {
    if l.Do? && Act(cfg, s.clock, s.rows, ThreadOf(s, l.thread), l.action).Some? {
      ActKeepsOnTime(cfg, lat, s.clock, s.rows, ThreadOf(s, l.thread), l.action);
    }
  }

  lemma OnTimeIsYoung(cfg: Config, lat: Latency, s: State)
    requires WithinGrace(cfg, lat) && AllOnTime(cfg, lat, s)
    ensures HoldsAreYoung(cfg, s)
  {
    forall i | i in s.threads && HeldTask(s.threads[i].pc).Some?
      ensures s.clock - s.threads[i].claimedAt <= StaleAfterMs(cfg)
    {
      assert OnTime(cfg, lat, s.clock, s.threads[i]);
    }
  }

  /** Stages kept within their latencies keep every hold within the recovery age. */
  lemma {:induction false} DisciplinedIsPunctual(cfg: Config, lat: Latency, s: State, run: seq<Label>)
    requires WithinGrace(cfg, lat) && AllOnTime(cfg, lat, s) && Disciplined(cfg, lat, s, run)
    ensures Punctual(cfg, s, run)
    decreases |run|
  {
    if run != [] {
      StepKeepsOnTime(cfg, lat, s, run[0]);
      OnTimeIsYoung(cfg, lat, Next(cfg, s, run[0]));
      DisciplinedIsPunctual(cfg, lat, Next(cfg, s, run[0]), run[1..]);
    }
  }

  /**
   Whatever the heartbeat interval, a worker that spends at most fifty seconds of each hold outside
   the handler and its two stop graces never lets two handlers run.
   */
  lemma FiftySecondsSuffice(cfg: Config, lat: Latency, s: State, run: seq<Label>)
    requires lat.prepare + lat.wake + lat.finish <= 50_000
    requires Quiescent(s) && Disciplined(cfg, lat, s, run)
    ensures LeaseExclusive(Exec(cfg, s, run))
  {
    DisciplinedIsPunctual(cfg, lat, s, run);
    LeaseExclusionHolds(cfg, s, run);
  }

  // ---------------------------------------------------------------------------------------
  // Without the recovery discipline the property fails: two recoveries overlap.

  /** A thread polls the task and starts its handler. */
  function PollAndLaunch(t: TaskId, i: ThreadId): seq<Label> {
    [Do(i, Poll(t)), Do(i, Recheck), Do(i, Stamp("w")), Do(i, Launch(true))]
  }

  lemma PollAndLaunchRuns(cfg: Config, s: State, t: TaskId, i: ThreadId)
    requires cfg.maxTaskRuntime > 0
    requires ThreadOf(s, i).pc == Idle && IsPending(s.rows, t) && HasHandler(s.rows[t].taskType)
    ensures var s' := Exec(cfg, s, PollAndLaunch(t, i));
            && s'.clock == s.clock && t in s'.rows && s'.rows[t].taskType == s.rows[t].taskType
            && s'.threads == s.threads[i := Thread(Running(t, Live), s.clock, s.clock)]
  {
    var run := PollAndLaunch(t, i);
    var s1 := Next(cfg, s, run[0]);
    var s2 := Next(cfg, s1, run[1]);
    var s3 := Next(cfg, s2, run[2]);
    var s4 := Next(cfg, s3, run[3]);
    assert Exec(cfg, s, run) == Exec(cfg, s1, run[1..]) == Exec(cfg, s2, run[2..]);
    assert Exec(cfg, s2, run[2..]) == Exec(cfg, s3, run[3..]) == Exec(cfg, s4, run[4..]) == s4;
  }

  /** Worker 0 claims a new task and crashes; the row stays RUNNING until it is stale. */
  function Abandon(cfg: Config, t: TaskId): seq<Label> {
    [Create(t, AGENT_TASK), Do(0, Poll(t)), Do(0, Crash), Tick(StaleAfterMs(cfg) + 1)]
  }

  lemma AbandonRuns(cfg: Config, t: TaskId)
    ensures Exec(cfg, State(0, map[], map[]), Abandon(cfg, t))
         == State(StaleAfterMs(cfg) + 1, map[t := ClaimRow(NewRow(AGENT_TASK, 0), 0)], map[0 := IDLE_THREAD])
  {
    var run := Abandon(cfg, t);
    var s := State(0, map[], map[]);
    var s1 := Next(cfg, s, run[0]);
    var s2 := Next(cfg, s1, run[1]);
    var s3 := Next(cfg, s2, run[2]);
    var s4 := Next(cfg, s3, run[3]);
    assert s1.rows == map[t := NewRow(AGENT_TASK, 0)] && s2.rows == map[t := ClaimRow(NewRow(AGENT_TASK, 0), 0)];
    assert s3.threads == map[0 := IDLE_THREAD];
    assert Exec(cfg, s, run) == Exec(cfg, s1, run[1..]) == Exec(cfg, s2, run[2..]);
    assert Exec(cfg, s2, run[2..]) == Exec(cfg, s3, run[3..]) == Exec(cfg, s4, run[4..]) == s4;
  }

  /** Threads 1 and 2 both read the stale row; only thread 1 commits so far. */
  const TWO_READ_ONE_COMMITS: seq<Label> := [Do(1, ReadStale), Do(2, ReadStale), Do(1, CommitRecovery)]

  lemma TwoReadOneCommitsRuns(cfg: Config, s: State, t: TaskId)
    requires ThreadOf(s, 1).pc == Idle && ThreadOf(s, 2).pc == Idle
    requires t in s.rows && IsStale(s.rows[t], s.clock, StaleAfterMs(cfg))
    ensures var s' := Exec(cfg, s, TWO_READ_ONE_COMMITS);
            && t in s'.rows && s'.rows[t] == RecoverRow(s.rows[t])
            && ThreadOf(s', 1).pc == Idle && ThreadOf(s', 2).pc.Recovering? && t in ThreadOf(s', 2).pc.ids
  {
    var run := TWO_READ_ONE_COMMITS;
    var s1 := Next(cfg, s, run[0]);
    var s2 := Next(cfg, s1, run[1]);
    var s3 := Next(cfg, s2, run[2]);
    assert Exec(cfg, s, run) == Exec(cfg, s1, run[1..]) == Exec(cfg, s2, run[2..]) == Exec(cfg, s3, run[3..]) == s3;
  }

  function OverlappingRecoveries(cfg: Config, t: TaskId): seq<Label> {
    Abandon(cfg, t) + (TWO_READ_ONE_COMMITS + (PollAndLaunch(t, 1) + ([Do(2, CommitRecovery)] + PollAndLaunch(t, 2))))
  }

  /** The late commit puts the claimed, running task back, and thread 2 can claim it. */
  lemma LateCommitThenLaunch(cfg: Config, s: State, t: TaskId)
    requires cfg.maxTaskRuntime > 0
    requires t in s.rows && HasHandler(s.rows[t].taskType)
    requires ThreadOf(s, 2).pc.Recovering? && t in ThreadOf(s, 2).pc.ids
    requires 1 in s.threads && s.threads[1].pc == Running(t, Live)
    ensures !LeaseExclusive(Exec(cfg, s, [Do(2, CommitRecovery)] + PollAndLaunch(t, 2)))
  {
    var run := [Do(2, CommitRecovery)] + PollAndLaunch(t, 2);
    var s1 := Next(cfg, s, run[0]);
    assert run[1..] == PollAndLaunch(t, 2);
    PollAndLaunchRuns(cfg, s1, t, 2);
    var s2 := Exec(cfg, s1, PollAndLaunch(t, 2));
    assert RunsHandler(s2.threads[1], t) && RunsHandler(s2.threads[2], t);
  }

  lemma ReclaimThenLateCommit(cfg: Config, s: State, t: TaskId)
    requires cfg.maxTaskRuntime > 0
    requires IsPending(s.rows, t) && HasHandler(s.rows[t].taskType)
    requires ThreadOf(s, 1).pc == Idle && ThreadOf(s, 2).pc.Recovering? && t in ThreadOf(s, 2).pc.ids
    ensures !LeaseExclusive(Exec(cfg, s, PollAndLaunch(t, 1) + ([Do(2, CommitRecovery)] + PollAndLaunch(t, 2))))
  {
    ExecAppend(cfg, s, PollAndLaunch(t, 1), [Do(2, CommitRecovery)] + PollAndLaunch(t, 2));
    PollAndLaunchRuns(cfg, s, t, 1);
    LateCommitThenLaunch(cfg, Exec(cfg, s, PollAndLaunch(t, 1)), t);
  }

  /**
   Under every configuration that runs handlers at all: thread 2 writes its late recovery over
   thread 1's fresh claim, claims the task itself and starts it a second time.
   */
  lemma OverlappingRecoveriesBreakTheLease(cfg: Config, t: TaskId)
    requires cfg.maxTaskRuntime > 0
    ensures !LeaseExclusive(Exec(cfg, State(0, map[], map[]), OverlappingRecoveries(cfg, t)))
  {
    var s0 := State(0, map[], map[]);
    var tail := PollAndLaunch(t, 1) + ([Do(2, CommitRecovery)] + PollAndLaunch(t, 2));
    ExecAppend(cfg, s0, Abandon(cfg, t), TWO_READ_ONE_COMMITS + tail);
    AbandonRuns(cfg, t);
    var s1 := Exec(cfg, s0, Abandon(cfg, t));
    ExecAppend(cfg, s1, TWO_READ_ONE_COMMITS, tail);
    TwoReadOneCommitsRuns(cfg, s1, t);
    ReclaimThenLateCommit(cfg, Exec(cfg, s1, TWO_READ_ONE_COMMITS), t);
  }
}
