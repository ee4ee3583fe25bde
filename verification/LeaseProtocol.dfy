/**
 The task lease protocol: any number of worker threads race for the rows of the task
 table, fed by a message stream and by polling the table.

 One label is one atomic step: a committed transaction, a read, a process event, or the
 passing of time. A label whose step is not possible leaves the state unchanged, so every
 sequence of labels is a run, and a statement about all label sequences is a statement
 about all interleavings. The message broker is an adversary: `Deliver` may hand any thread
 any task id at any time, which covers lost, duplicated, reordered, redelivered and trimmed
 messages; publishing and acknowledging then change nothing the protocol can observe.
 */
module LeaseProtocol {
  import opened Wrappers
  import opened TaskTable

  type ThreadId = nat

  /** Deployment settings; the two times are in seconds. */
  datatype Config = Config(maxTaskRuntime: int, heartbeatInterval: int, maxRetry: int)

  const PROCESS_STOP_GRACE_MS := 5_000

  function Max(a: int, b: int): int { if a < b then b else a }

  function StaleGraceMs(cfg: Config): int { 1000 * Max(60, cfg.heartbeatInterval * 2) }

  function StaleAfterMs(cfg: Config): int { 1000 * Max(1, cfg.maxTaskRuntime) + StaleGraceMs(cfg) }

  predicate HasHandler(taskType: TaskType) { taskType != REFRESH_KNOWLEDGE }

  datatype Process = Live | Exited(ok: bool)

  /** Where a thread stands, with the locals it carries. */
  datatype Pc =
    | Idle
    | Delivered(task: TaskId)               // a message named the task; row not read yet
    | Wanting(task: TaskId)                 // read as PENDING; not claimed yet
    | Polled(task: TaskId)                  // claimed by a poll; row not read again yet
    | Claimed(task: TaskId)                 // before worker id and lock time are committed
    | Stamped(task: TaskId)                 // before the handler is looked up
    | Running(task: TaskId, proc: Process)  // the handler process was started
    | Stopping(task: TaskId, proc: Process) // the handler process was told to stop
    | Raised(task: TaskId)                  // handler failed; FAILED not written yet
    | Finished(task: TaskId)                // row not inspected yet
    | Bumping(task: TaskId, seen: nat)      // retry count read, not written back yet
    | Requeueing(task: TaskId)              // retry count written, PENDING not yet
    | Recovering(ids: set<TaskId>)          // stale rows read, not written back yet

  /** `claimedAt` is when the thread's claim committed, `since` when its present stage began. */
  datatype Thread = Thread(pc: Pc, claimedAt: int, since: int)

  datatype State = State(clock: int, rows: Rows, threads: map<ThreadId, Thread>)

  datatype Action =
    | Poll(task: TaskId) | Deliver(task: TaskId)
    | Look | Claim | Recheck | Stamp(workerId: string) | Launch(started: bool)
    | HandlerWrite(success: bool) | HandlerExit(ok: bool)
    | Notice | Terminate | Reap | MarkFailed
    | Inspect | Bump | Requeue
    | ReadStale | CommitRecovery
    | Crash

  datatype Label =
    | Create(id: TaskId, taskType: TaskType)
    | Tick(elapsed: nat)
    | Do(thread: ThreadId, action: Action)

  const IDLE_THREAD := Thread(Idle, 0, 0)

  function ThreadOf(s: State, i: ThreadId): Thread {
    if i in s.threads then s.threads[i] else IDLE_THREAD
  }

  predicate IsPending(rows: Rows, t: TaskId) { t in rows && rows[t].status == PENDING }

  /** The step of one thread: its new locals and the new table, or None when it cannot take it. */
  function Act(cfg: Config, now: int, rows: Rows, th: Thread, a: Action): Option<(Rows, Thread)> {
    match (a, th.pc)
    case (Crash, _) => Some((rows, IDLE_THREAD))

    case (Poll(t), Idle) =>
      if IsPending(rows, t)
      then Some((rows[t := ClaimRow(rows[t], now)], Thread(Polled(t), now, now)))
      else None
    case (Deliver(t), Idle) => Some((rows, th.(pc := Delivered(t))))
    case (Look, Delivered(t)) =>
      Some((rows, th.(pc := if IsPending(rows, t) then Wanting(t) else Idle)))
    case (Claim, Wanting(t)) =>
      if IsPending(rows, t)
      then Some((rows[t := ClaimRow(rows[t], now)], Thread(Claimed(t), now, now)))
      else Some((rows, th.(pc := Idle)))
    case (Recheck, Polled(t)) =>
      Some((rows, th.(pc := if t in rows && rows[t].status == RUNNING then Claimed(t) else Idle)))
    case (Stamp(w), Claimed(t)) =>
      if t !in rows then None
      else Some((rows[t := rows[t].(workerId := Some(w), lockedAt := Some(now))], th.(pc := Stamped(t))))
    case (Launch(started), Stamped(t)) =>
      if t !in rows then None
      else if !HasHandler(rows[t].taskType) then
        Some((rows[t := SetStatus(rows[t], FAILED, now)], th.(pc := Finished(t), since := now)))
      else if cfg.maxTaskRuntime <= 0 || !started then
        Some((rows, th.(pc := Raised(t), since := now)))
      else
        Some((rows, th.(pc := Running(t, Live), since := now)))

    case (HandlerWrite(success), Running(t, Live)) => HandlerWrites(now, rows, th, t, success)
    case (HandlerWrite(success), Stopping(t, Live)) => HandlerWrites(now, rows, th, t, success)
    case (HandlerExit(ok), Running(t, Live)) => Some((rows, th.(pc := Running(t, Exited(ok)))))
    case (HandlerExit(ok), Stopping(t, Live)) => Some((rows, th.(pc := Stopping(t, Exited(ok)))))

    case (Notice, Running(t, Exited(ok))) =>
      Some((rows, th.(pc := if ok then Finished(t) else Raised(t), since := now)))
    case (Terminate, Running(t, Live)) => Some((rows, th.(pc := Stopping(t, Live), since := now)))
    case (Reap, Stopping(t, _)) => Some((rows, th.(pc := Raised(t), since := now)))
    case (MarkFailed, Raised(t)) =>
      if t !in rows then None
      else Some((rows[t := SetStatus(rows[t], FAILED, now)], th.(pc := Finished(t))))

    case (Inspect, Finished(t)) =>
      if t in rows && rows[t].status == FAILED && rows[t].retryCount < cfg.maxRetry
      then Some((rows, th.(pc := Bumping(t, rows[t].retryCount))))
      else Some((rows, th.(pc := Idle)))
    case (Bump, Bumping(t, seen)) =>
      if t !in rows then None
      else Some((rows[t := rows[t].(retryCount := seen + 1)], th.(pc := Requeueing(t))))
    case (Requeue, Requeueing(t)) =>
      if t !in rows then None
      else Some((rows[t := SetStatus(rows[t], PENDING, now)], th.(pc := Idle)))

    case (ReadStale, Idle) => Some((rows, th.(pc := Recovering(StaleIds(rows, now, StaleAfterMs(cfg))))))
    case (CommitRecovery, Recovering(ids)) => Some((RecoverRows(rows, ids), th.(pc := Idle)))

    case _ => None
  }

  /** A live handler process may write a final status, any number of times. */
  function HandlerWrites(now: int, rows: Rows, th: Thread, t: TaskId, success: bool): Option<(Rows, Thread)> {
    if t !in rows then None
    else Some((rows[t := SetStatus(rows[t], if success then SUCCESS else FAILED, now)], th))
  }

  function Next(cfg: Config, s: State, l: Label): State {
    match l
    case Create(t, taskType) =>
      if t in s.rows then s else s.(rows := s.rows[t := NewRow(taskType, s.clock)])
    case Tick(elapsed) => s.(clock := s.clock + elapsed)
    case Do(i, a) =>
      match Act(cfg, s.clock, s.rows, ThreadOf(s, i), a)
      case None => s
      case Some((rows, th)) => s.(rows := rows, threads := s.threads[i := th])
  }

  function Exec(cfg: Config, s: State, run: seq<Label>): State
    decreases |run|
  {
    if run == [] then s else Exec(cfg, Next(cfg, s, run[0]), run[1..])
  }

  lemma {:induction false} ExecAppend(cfg: Config, s: State, a: seq<Label>, b: seq<Label>)
    ensures Exec(cfg, s, a + b) == Exec(cfg, Exec(cfg, s, a), b)
    decreases |a|
  {
    if a == [] {
      assert a + b == b;
    } else {
      assert (a + b)[0] == a[0] && (a + b)[1..] == a[1..] + b;
      ExecAppend(cfg, Next(cfg, s, a[0]), a[1..], b);
    }
  }

  predicate Quiescent(s: State) { s.threads == map[] }

  // ---------------------------------------------------------------------------------------
  // Who holds a task, and the safety property.

  /** The task a thread is responsible for: from its claim to its last status write. */
  function HeldTask(pc: Pc): Option<TaskId> {
    match pc
    case Polled(t) => Some(t)
    case Claimed(t) => Some(t)
    case Stamped(t) => Some(t)
    case Running(t, _) => Some(t)
    case Stopping(t, _) => Some(t)
    case Raised(t) => Some(t)
    case Finished(t) => Some(t)
    case Bumping(t, _) => Some(t)
    case Requeueing(t) => Some(t)
    case _ => None
  }

  predicate Holds(th: Thread, t: TaskId) { HeldTask(th.pc) == Some(t) }

  predicate RunsHandler(th: Thread, t: TaskId) {
    th.pc == Running(t, Live) || th.pc == Stopping(t, Live)
  }

  /** No task has two live handler processes. */
  ghost predicate LeaseExclusive(s: State) {
    forall i, j, t ::
      (i in s.threads && j in s.threads && RunsHandler(s.threads[i], t) && RunsHandler(s.threads[j], t)) ==> i == j
  }

  ghost predicate Held(s: State, t: TaskId) {
    exists i :: i in s.threads && Holds(s.threads[i], t)
  }

  ghost predicate SingleHolder(s: State) {
    forall i, j, t ::
      (i in s.threads && j in s.threads && Holds(s.threads[i], t) && Holds(s.threads[j], t)) ==> i == j
  }

  /**
   A held row is not up for claiming; while it is RUNNING its start is its holder's claim; and
   the retry count a holder is about to write back is still the one it read.
   */
  predicate HolderMatchesRow(rows: Rows, th: Thread) {
    HeldTask(th.pc).Some? ==>
      var t := HeldTask(th.pc).value;
      && t in rows
      && rows[t].status != PENDING
      && (rows[t].status == RUNNING ==> rows[t].startedAt == Some(th.claimedAt))
      && (th.pc.Bumping? ==> rows[t].retryCount == th.pc.seen)
  }

  ghost predicate Inv(s: State) {
    && SingleHolder(s)
    && forall i :: i in s.threads ==> HolderMatchesRow(s.rows, s.threads[i])
  }

  lemma InvGivesExclusion(s: State)
    requires Inv(s)
    ensures LeaseExclusive(s)
  {
    forall i, j, t | i in s.threads && j in s.threads &&
                     RunsHandler(s.threads[i], t) && RunsHandler(s.threads[j], t)
      ensures i == j
    {
      assert Holds(s.threads[i], t) && Holds(s.threads[j], t);
    }
  }

  /**
   What one thread's step can touch: its own task, or one PENDING row, which it then holds.
   Every other held row stays as it was.
   */
  lemma ActIsLocal(cfg: Config, now: int, rows: Rows, th: Thread, a: Action)
    requires HolderMatchesRow(rows, th)
    requires !a.CommitRecovery? && Act(cfg, now, rows, th, a).Some?
    ensures var (rows', th') := Act(cfg, now, rows, th, a).value;
            && rows'.Keys == rows.Keys
            && HolderMatchesRow(rows', th')
            && (HeldTask(th'.pc).Some? ==>
                  HeldTask(th'.pc) == HeldTask(th.pc) || IsPending(rows, HeldTask(th'.pc).value))
            && forall u :: u in rows && HeldTask(th.pc) != Some(u) && rows[u].status != PENDING ==> rows'[u] == rows[u]
  {
  }

  lemma StepKeepsInv(cfg: Config, s: State, l: Label)
    requires Inv(s)
    requires !(l.Do? && l.action.CommitRecovery?)
    ensures Inv(Next(cfg, s, l))
  {
    if l.Do? && Act(cfg, s.clock, s.rows, ThreadOf(s, l.thread), l.action).Some? {
      ActIsLocal(cfg, s.clock, s.rows, ThreadOf(s, l.thread), l.action);
      ThreadMoved(s, Act(cfg, s.clock, s.rows, ThreadOf(s, l.thread), l.action).value.0, l.thread,
                  Act(cfg, s.clock, s.rows, ThreadOf(s, l.thread), l.action).value.1);
    }
  }

  /** Replacing one thread and the rows only it may touch keeps the invariant. */
  lemma ThreadMoved(s: State, rows: Rows, i: ThreadId, th: Thread)
    requires Inv(s)
    requires rows.Keys == s.rows.Keys && HolderMatchesRow(rows, th)
    requires HeldTask(th.pc).Some? ==>
               HeldTask(th.pc) == HeldTask(ThreadOf(s, i).pc) || IsPending(s.rows, HeldTask(th.pc).value)
    requires forall u :: u in s.rows && HeldTask(ThreadOf(s, i).pc) != Some(u) && s.rows[u].status != PENDING ==>
                           rows[u] == s.rows[u]
    ensures Inv(s.(rows := rows, threads := s.threads[i := th]))
  {
    forall j | j in s.threads && j != i && HeldTask(s.threads[j].pc).Some?
      ensures HolderMatchesRow(rows, s.threads[j]) && HeldTask(s.threads[j].pc) != HeldTask(th.pc)
    {
      var t := HeldTask(s.threads[j].pc).value;
      assert Holds(s.threads[j], t) && HolderMatchesRow(s.rows, s.threads[j]);
      assert i in s.threads ==> !Holds(s.threads[i], t);
    }
  }

  /**
   Recovery reads the stale rows in one statement and writes them back in a later commit that
   tests nothing. That commit is safe exactly when no row it writes is held.
   */
  lemma RecoveryIsSafeExactlyWhenUnheld(cfg: Config, s: State, i: ThreadId)
    requires Inv(s) && ThreadOf(s, i).pc.Recovering?
    ensures Inv(Next(cfg, s, Do(i, CommitRecovery))) <==> forall t :: t in ThreadOf(s, i).pc.ids ==> !Held(s, t)
  {
    var ids := ThreadOf(s, i).pc.ids;
    var s' := Next(cfg, s, Do(i, CommitRecovery));
    assert forall j :: j != i && j in s'.threads ==> s'.threads[j] == s.threads[j];
    if j, t :| j in s.threads && Holds(s.threads[j], t) && t in ids {
      assert s'.threads[j] == s.threads[j] && HolderMatchesRow(s.rows, s.threads[j]);
      assert !HolderMatchesRow(s'.rows, s'.threads[j]);
    } else {
      forall j | j in s'.threads
        ensures HolderMatchesRow(s'.rows, s'.threads[j])
      {
        if j != i && HeldTask(s.threads[j].pc).Some? {
          assert HolderMatchesRow(s.rows, s.threads[j]) && Holds(s.threads[j], HeldTask(s.threads[j].pc).value);
        }
      }
    }
  }

  // ---------------------------------------------------------------------------------------
  // Counting what happens to one task in a run.

  datatype Event = Creation | Claiming | Requeuing | Recovery

  predicate Happens(cfg: Config, s: State, l: Label, e: Event, t: TaskId) {
    match (e, l)
    case (Creation, Create(u, _)) => u == t && t !in s.rows
    case (Claiming, Do(i, Poll(u))) => u == t && ThreadOf(s, i).pc == Idle && IsPending(s.rows, t)
    case (Claiming, Do(i, Claim)) => ThreadOf(s, i).pc == Wanting(t) && IsPending(s.rows, t)
    case (Requeuing, Do(i, Requeue)) => ThreadOf(s, i).pc == Requeueing(t) && t in s.rows
    case (Recovery, Do(i, CommitRecovery)) =>
      ThreadOf(s, i).pc.Recovering? && t in ThreadOf(s, i).pc.ids && t in s.rows
    case _ => false
  }

  function Once(b: bool): nat { if b then 1 else 0 }

  /** How often the event happens to the task in the run. */
  function Count(cfg: Config, s: State, run: seq<Label>, e: Event, t: TaskId): nat
    decreases |run|
  {
    if run == [] then 0
    else Once(Happens(cfg, s, run[0], e, t)) + Count(cfg, Next(cfg, s, run[0]), run[1..], e, t)
  }
}
