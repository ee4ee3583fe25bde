/**
 One worker thread as the code writes it: statements over the repository and the broker, with the
 other threads, the handler processes and the clock moving between any two transactions. Each
 method is proved to be a run of the lease protocol, so what is proved there of all runs holds of
 this code under every interleaving.
 */
module TaskWorker {
  import opened Wrappers
  import opened TaskTable
  import opened TaskBroker
  import opened LeaseProtocol

  const STALE_RECOVERY_INTERVAL_MS := 60_000
  const PENDING_RECLAIM_INTERVAL_MS := 15_000
  const JOIN_SLICE_MS := 200

  /** How one handler process behaves: whether it starts, the final statuses it writes, how it ends. */
  datatype Attempt = Attempt(started: bool, writes: seq<bool>, ending: Ending)
  datatype Ending = Returned(ok: bool) | Overran

  ghost predicate ByOthers(run: seq<Label>, i: ThreadId) {
    forall l :: l in run && l.Do? ==> l.thread != i
  }

  /** What the others do before the k-th transaction of this thread. */
  type Interference = nat -> seq<Label>

  ghost predicate NeverActsAs(env: Interference, i: ThreadId) {
    forall k :: ByOthers(env(k), i)
  }

  predicate IsRunning(rows: Rows, t: TaskId) { t in rows && rows[t].status == RUNNING }

  /** A thread's transactions in order, the others' steps before each of them. */
  ghost function Woven(i: ThreadId, actions: seq<Action>, env: Interference, from: nat): seq<Label> {
    if actions == [] then []
    else
      var last := |actions| - 1;
      Woven(i, actions[..last], env, from) + (env(from + last) + [Do(i, actions[last])])
  }

  /** What a thread itself does in a run. */
  function OwnActions(run: seq<Label>, i: ThreadId): seq<Action> {
    if run == [] then []
    else
      var l := run[|run| - 1];
      OwnActions(run[..|run| - 1], i) + if l.Do? && l.thread == i then [l.action] else []
  }

  lemma {:induction false} OthersOnly(run: seq<Label>, others: seq<Label>, i: ThreadId)
    requires ByOthers(others, i)
    ensures OwnActions(run + others, i) == OwnActions(run, i)
    decreases |others|
  {
    if others == [] {
      assert run + others == run;
    } else {
      var last := |others| - 1;
      assert (run + others)[..|run| + last] == run + others[..last] && (run + others)[|run| + last] == others[last];
      assert others[last] in others;
      OthersOnly(run, others[..last], i);
    }
  }

  /** In a woven run the thread does just its own transactions. */
  lemma {:induction false} OwnOfWoven(i: ThreadId, actions: seq<Action>, env: Interference, from: nat)
    requires NeverActsAs(env, i)
    ensures OwnActions(Woven(i, actions, env, from), i) == actions
  {
    if actions != [] {
      var last := |actions| - 1;
      var before, own := Woven(i, actions[..last], env, from), Do(i, actions[last]);
      OwnOfWoven(i, actions[..last], env, from);
      OthersOnly(before, env(from + last), i);
      var run := before + (env(from + last) + [own]);
      assert run[..|run| - 1] == before + env(from + last) && run[|run| - 1] == own;
      assert actions == actions[..last] + [actions[last]];
    }
  }

  /** What a thread's k-th transaction does to the state, once the others have moved. */
  type Move = (State, nat, Action) -> State

  ghost function MoveOf(cfg: Config, i: ThreadId, env: Interference): Move {
    (s: State, k: nat, a: Action) => Exec(cfg, s, env(k) + [Do(i, a)])
  }

  function Made(move: Move, s: State, k: nat, a: Action): State { move(s, k, a) }

  /** The others' steps before the thread's k-th transaction are env(k), and none of them is this thread's. */
  ghost predicate Amid(move: Move, cfg: Config, i: ThreadId, env: Interference) {
    && NeverActsAs(env, i)
    && forall s, k, a {:trigger Made(move, s, k, a)} :: Made(move, s, k, a) == Exec(cfg, s, env(k) + [Do(i, a)])
  }

  lemma MoveIsAmid(cfg: Config, i: ThreadId, env: Interference)
    requires NeverActsAs(env, i)
    ensures Amid(MoveOf(cfg, i, env), cfg, i, env)
  {
  }

  lemma MoveIsStep(move: Move, cfg: Config, i: ThreadId, env: Interference, s: State, k: nat, a: Action)
    requires Amid(move, cfg, i, env)
    ensures move(s, k, a) == Next(cfg, Exec(cfg, s, env(k)), Do(i, a))
    ensures ByOthers(env(k), i)
  {
    assert Made(move, s, k, a) == Exec(cfg, s, env(k) + [Do(i, a)]);
    ThenStep(cfg, s, env(k), Do(i, a));
  }

  /** The state after these transactions, counted from `from`. */
  function Interleaved(s: State, actions: seq<Action>, move: Move, from: nat): State {
    if actions == [] then s
    else move(Interleaved(s, actions[..|actions| - 1], move, from), from + |actions| - 1, actions[|actions| - 1])
  }

  /** That is where the woven run leads. */
  lemma {:induction false} InterleavedIsRun(cfg: Config, s: State, i: ThreadId, actions: seq<Action>, env: Interference, from: nat)
    ensures Interleaved(s, actions, MoveOf(cfg, i, env), from) == Exec(cfg, s, Woven(i, actions, env, from))
  {
    if actions != [] {
      var last := |actions| - 1;
      InterleavedIsRun(cfg, s, i, actions[..last], env, from);
      ExecAppend(cfg, s, Woven(i, actions[..last], env, from), env(from + last) + [Do(i, actions[last])]);
    }
  }

  /** One more transaction. */
  lemma GoesOn(s: State, actions: seq<Action>, a: Action, more: seq<Action>, move: Move, from: nat)
    requires more == actions + [a]
    ensures Interleaved(s, more, move, from) == move(Interleaved(s, actions, move, from), from + |actions|, a)
  {
    assert more[..|actions|] == actions;
  }

  /** The first transaction. */
  lemma StartsWith(s: State, a: Action, move: Move, from: nat)
    ensures Interleaved(s, [a], move, from) == move(s, from, a)
  {
    assert [] + [a] == [a];
    GoesOn(s, [], a, [a], move, from);
  }

  /** One stretch after another. */
  lemma {:induction false} Continues(s: State, a: seq<Action>, b: seq<Action>, all: seq<Action>, move: Move, from: nat)
    requires all == a + b
    ensures Interleaved(s, all, move, from) == Interleaved(Interleaved(s, a, move, from), b, move, from + |a|)
    decreases |b|
  {
    if b == [] {
      assert all == a;
    } else {
      var last := |b| - 1;
      GoesOn(s, a + b[..last], b[last], all, move, from);
      Continues(s, a, b[..last], a + b[..last], move, from);
    }
  }

  // ---------------------------------------------------------------------------------------
  // The transactions of one execution.

  /** Taking a task: a poll's claim is rechecked, a delivery looked up and claimed; a claim is stamped. */
  predicate IsAcquisition(actions: seq<Action>, polled: bool, claimed: bool, workerId: string) {
    if polled then actions == if claimed then [Recheck, Stamp(workerId)] else [Recheck]
    else if claimed then actions == [Look, Claim, Stamp(workerId)]
    else actions == [Look] || actions == [Look, Claim]
  }

  function Writes(writes: seq<bool>): (actions: seq<Action>)
    ensures |actions| == |writes| && forall k :: 0 <= k < |writes| ==> actions[k] == HandlerWrite(writes[k])
  {
    seq(|writes|, k requires 0 <= k < |writes| => HandlerWrite(writes[k]))
  }

  /** The handler process exits and that is noticed, or it is stopped and reaped. */
  function EndActions(ending: Ending): seq<Action> {
    match ending
    case Returned(ok) => [HandlerExit(ok), Notice]
    case Overran => [Terminate, Reap]
  }

  function HandlerActions(attempt: Attempt): seq<Action> { Writes(attempt.writes) + EndActions(attempt.ending) }

  /** The handler runs at all: there is one, it may run, and its process starts. */
  predicate Runs(cfg: Config, taskType: TaskType, attempt: Attempt) {
    HasHandler(taskType) && cfg.maxTaskRuntime > 0 && attempt.started
  }

  /** A handler that should have run and did not return cleanly. */
  predicate Fails(cfg: Config, taskType: TaskType, attempt: Attempt) {
    HasHandler(taskType) && !(cfg.maxTaskRuntime > 0 && attempt.started && attempt.ending == Returned(true))
  }

  /** Launch; the handler's writes and its end, if it runs; and a FAILED write if it fails. */
  function AttemptActions(cfg: Config, taskType: TaskType, attempt: Attempt): seq<Action> {
    [Launch(attempt.started)]
    + (if Runs(cfg, taskType, attempt) then HandlerActions(attempt) else [])
    + if Fails(cfg, taskType, attempt) then [MarkFailed] else []
  }

  /** Inspection, and for a retry the count and the requeue. */
  function SettleActions(retried: bool): seq<Action> { if retried then [Inspect, Bump, Requeue] else [Inspect] }

  /** The row calls for a retry. */
  predicate RetryDue(cfg: Config, rows: Rows, t: TaskId) {
    t in rows && rows[t].status == FAILED && rows[t].retryCount < cfg.maxRetry
  }

  /** Everything a worker does about one task. */
  function ExecutionActions(acquired: seq<Action>, claimed: bool, cfg: Config, taskType: TaskType, attempt: Attempt, retried: bool): seq<Action> {
    acquired + if claimed then AttemptActions(cfg, taskType, attempt) + SettleActions(retried) else []
  }

  /** These are the transactions of some execution. */
  ghost predicate IsExecution(actions: seq<Action>, polled: bool, cfg: Config, attempt: Attempt, workerId: string) {
    exists acquired, claimed, taskType, retried ::
      && IsAcquisition(acquired, polled, claimed, workerId)
      && actions == ExecutionActions(acquired, claimed, cfg, taskType, attempt, retried)
  }

  /** The deliveries that one look at the pending list takes over. */
  function TakenOver(entries: seq<Entry>, now: int, concurrency: nat): seq<Message> {
    var count := Max(10, 2 * concurrency);
    IdleMessages(entries[..if count < |entries| then count else |entries|], now, PENDING_RECLAIM_MIN_IDLE_MS)
  }

  /** The reclaimed messages at hand: those of an earlier batch, else those of a new one once it is due. */
  function Reclaimable(messages: seq<Message>, nextReclaim: int, entries: seq<Entry>, now: int, concurrency: nat): seq<Message> {
    if messages != [] then messages
    else if now < nextReclaim then []
    else TakenOver(entries, now, concurrency)
  }

  /** No execution contains a crash. */
  lemma ExecutionsDoNotCrash(acquired: seq<Action>, polled: bool, claimed: bool, workerId: string, cfg: Config, taskType: TaskType,
                             attempt: Attempt, retried: bool)
    requires IsAcquisition(acquired, polled, claimed, workerId)
    ensures Crash !in ExecutionActions(acquired, claimed, cfg, taskType, attempt, retried)
  {
    assert Crash !in Writes(attempt.writes);
  }

  lemma OtherStepKeepsThread(cfg: Config, s: State, l: Label, i: ThreadId)
    requires l.Do? ==> l.thread != i
    ensures ThreadOf(Next(cfg, s, l), i) == ThreadOf(s, i)
    ensures forall t :: t in s.rows ==> t in Next(cfg, s, l).rows && Next(cfg, s, l).rows[t].taskType == s.rows[t].taskType
  {
  }

  lemma {:induction false} OthersKeepThread(cfg: Config, s: State, run: seq<Label>, i: ThreadId)
    requires ByOthers(run, i)
    ensures ThreadOf(Exec(cfg, s, run), i) == ThreadOf(s, i)
    ensures forall t :: t in s.rows ==> t in Exec(cfg, s, run).rows && Exec(cfg, s, run).rows[t].taskType == s.rows[t].taskType
    decreases |run|
  {
    if run != [] {
      OtherStepKeepsThread(cfg, s, run[0], i);
      var s' := Next(cfg, s, run[0]);
      forall l | l in run[1..] && l.Do?
        ensures l.thread != i
      {
        assert l in run;
      }
      OthersKeepThread(cfg, s', run[1..], i);
      assert Exec(cfg, s, run) == Exec(cfg, s', run[1..]);
    }
  }

  lemma ThenStep(cfg: Config, s: State, env: seq<Label>, l: Label)
    ensures Exec(cfg, s, env + [l]) == Next(cfg, Exec(cfg, s, env), l)
  {
    ExecAppend(cfg, s, env, [l]);
    assert [l][1..] == [];
  }

  lemma ReadInterferenceCommit(cfg: Config, s: State, env: seq<Label>, i: ThreadId)
    ensures Exec(cfg, s, [Do(i, ReadStale)] + env + [Do(i, CommitRecovery)])
         == Next(cfg, Exec(cfg, Next(cfg, s, Do(i, ReadStale)), env), Do(i, CommitRecovery))
  {
    ThenStep(cfg, s, [Do(i, ReadStale)] + env, Do(i, CommitRecovery));
    assert ([Do(i, ReadStale)] + env)[1..] == env;
  }

  lemma CommitsWhatWasRead(cfg: Config, s: State, i: ThreadId, ids: set<TaskId>)
    requires i in s.threads && s.threads[i].pc == Recovering(ids)
    ensures Next(cfg, s, Do(i, CommitRecovery))
         == State(s.clock, RecoverRows(s.rows, ids), s.threads[i := s.threads[i].(pc := Idle)])
  {
  }

  class Worker {
    const cfg: Config
    const self: ThreadId
    const workerId: string
    const repo: TaskRepository
    const broker: Broker
    var clock: int
    var threads: map<ThreadId, Thread>
    var pendingMessages: seq<Message>
    var nextPendingReclaim: int
    var lastRecovery: int

    constructor (cfg: Config, self: ThreadId, workerId: string, repo: TaskRepository, broker: Broker,
                 clock: int, threads: map<ThreadId, Thread>)
      ensures this.cfg == cfg && this.self == self && this.workerId == workerId
      ensures this.repo == repo && this.broker == broker
      ensures Now() == State(clock, repo.rows, threads)
      ensures pendingMessages == [] && nextPendingReclaim == 0 && lastRecovery == clock
    {
      this.cfg, this.self, this.workerId := cfg, self, workerId;
      this.repo, this.broker := repo, broker;
      this.clock, this.threads := clock, threads;
      pendingMessages, nextPendingReclaim, lastRecovery := [], 0, clock;
    }

    function Now(): State
      reads this, repo
    {
      State(clock, repo.rows, threads)
    }

    function Position(): Pc
      reads this, repo
    {
      ThreadOf(Now(), self).pc
    }

    /** Everybody else moves. */
    method Yield(env: seq<Label>)
      requires ByOthers(env, self)
      modifies this`clock, this`threads, repo
      ensures Now() == Exec(cfg, old(Now()), env)
      ensures ThreadOf(Now(), self) == old(ThreadOf(Now(), self))
      ensures forall t :: t in old(repo.rows) ==> t in repo.rows && repo.rows[t].taskType == old(repo.rows)[t].taskType
    {
      OthersKeepThread(cfg, Now(), env, self);
      var s := Exec(cfg, Now(), env);
      clock, threads, repo.rows := s.clock, s.threads, s.rows;
    }

    method MoveTo(pc: Pc)
      modifies this`threads
      ensures threads == old(threads)[self := old(ThreadOf(Now(), self)).(pc := pc)]
    {
      threads := threads[self := (if self in threads then threads[self] else IDLE_THREAD).(pc := pc)];
    }

    method EnterStage(pc: Pc)
      modifies this`threads
      ensures threads == old(threads)[self := old(ThreadOf(Now(), self)).(pc := pc, since := clock)]
    {
      threads := threads[self := (if self in threads then threads[self] else IDLE_THREAD).(pc := pc, since := clock)];
    }

    // One method per transaction of the code: the others move, then this thread reads or commits.

    /** A poll's claim is read again in a new session. */
    method RecheckPolled(id: TaskId, env: Interference, k: nat, ghost move: Move) returns (ours: bool)
      requires Amid(move, cfg, self, env) && Position() == Polled(id)
      modifies this`clock, this`threads, repo
      ensures Now() == move(old(Now()), k, Recheck)
      ensures Position() == (if ours then Claimed(id) else Idle) && (ours ==> id in repo.rows)
      ensures ours <==> IsRunning(Exec(cfg, old(Now()), env(k)).rows, id)
    {
      MoveIsStep(move, cfg, self, env, Now(), k, Recheck);
      Yield(env(k));
      ours := id in repo.rows && repo.rows[id].status == RUNNING;
      MoveTo(if ours then Claimed(id) else Idle);
    }

    /** A delivered task is wanted only while its row is PENDING. */
    method ReadDelivered(id: TaskId, env: Interference, k: nat, ghost move: Move) returns (wanted: bool)
      requires Amid(move, cfg, self, env) && Position() == Delivered(id)
      modifies this`clock, this`threads, repo
      ensures Now() == move(old(Now()), k, Look)
      ensures Position() == if wanted then Wanting(id) else Idle
      ensures wanted <==> IsPending(Exec(cfg, old(Now()), env(k)).rows, id)
    {
      MoveIsStep(move, cfg, self, env, Now(), k, Look);
      Yield(env(k));
      wanted := id in repo.rows && repo.rows[id].status == PENDING;
      MoveTo(if wanted then Wanting(id) else Idle);
    }

    /** The conditional claim: another thread may have been faster. */
    method ClaimWanted(id: TaskId, env: Interference, k: nat, ghost move: Move) returns (ours: bool)
      requires Amid(move, cfg, self, env) && Position() == Wanting(id)
      modifies this`clock, this`threads, repo
      ensures Now() == move(old(Now()), k, Claim)
      ensures Position() == (if ours then Claimed(id) else Idle) && (ours ==> id in repo.rows)
      ensures ours <==> IsPending(Exec(cfg, old(Now()), env(k)).rows, id)
    {
      MoveIsStep(move, cfg, self, env, Now(), k, Claim);
      Yield(env(k));
      var got := repo.ClaimTask(Some(id), clock);
      ours := got.Some?;
      if ours {
        threads := threads[self := Thread(Claimed(id), clock, clock)];
      } else {
        MoveTo(Idle);
      }
    }

    /** Record who holds the task and since when. */
    method StampClaim(id: TaskId, env: Interference, k: nat, ghost move: Move)
      requires Amid(move, cfg, self, env) && Position() == Claimed(id) && id in repo.rows
      modifies this`clock, this`threads, repo
      ensures Now() == move(old(Now()), k, Stamp(workerId))
      ensures Position() == Stamped(id)
      ensures id in repo.rows && repo.rows[id].taskType == old(repo.rows)[id].taskType
    {
      MoveIsStep(move, cfg, self, env, Now(), k, Stamp(workerId));
      Yield(env(k));
      repo.rows := repo.rows[id := repo.rows[id].(workerId := Some(workerId), lockedAt := Some(clock))];
      MoveTo(Stamped(id));
    }

    /** No handler fails the task at once; otherwise the handler process is started. */
    method LaunchHandler(id: TaskId, started: bool, env: Interference, k: nat, ghost move: Move)
      requires Amid(move, cfg, self, env) && Position() == Stamped(id) && id in repo.rows
      modifies this`clock, this`threads, repo
      ensures Now() == move(old(Now()), k, Launch(started))
      ensures id in repo.rows && repo.rows[id].taskType == old(repo.rows)[id].taskType
      ensures Position() == if !HasHandler(repo.rows[id].taskType) then Finished(id)
                            else if cfg.maxTaskRuntime <= 0 || !started then Raised(id) else Running(id, Live)
    {
      MoveIsStep(move, cfg, self, env, Now(), k, Launch(started));
      Yield(env(k));
      if !HasHandler(repo.rows[id].taskType) {
        var _ := repo.UpdateStatus(id, FAILED, clock);
        EnterStage(Finished(id));
      } else if cfg.maxTaskRuntime <= 0 || !started {
        EnterStage(Raised(id));
      } else {
        EnterStage(Running(id, Live));
      }
    }

    /** The handler process commits a final status of its own. */
    method HandlerCommits(id: TaskId, success: bool, env: Interference, k: nat, ghost move: Move)
      requires Amid(move, cfg, self, env) && Position() == Running(id, Live) && id in repo.rows
      modifies this`clock, this`threads, repo
      ensures Now() == move(old(Now()), k, HandlerWrite(success))
      ensures Position() == Running(id, Live)
      ensures id in repo.rows && repo.rows[id].taskType == old(repo.rows)[id].taskType
    {
      MoveIsStep(move, cfg, self, env, Now(), k, HandlerWrite(success));
      Yield(env(k));
      var _ := repo.UpdateStatus(id, if success then SUCCESS else FAILED, clock);
      threads := threads[self := threads[self]];
    }

    /** The handler process ends. */
    method HandlerEnds(id: TaskId, ok: bool, env: Interference, k: nat, ghost move: Move)
      requires Amid(move, cfg, self, env) && Position() == Running(id, Live) && id in repo.rows
      modifies this`clock, this`threads, repo
      ensures Now() == move(old(Now()), k, HandlerExit(ok))
      ensures Position() == Running(id, Exited(ok))
      ensures id in repo.rows && repo.rows[id].taskType == old(repo.rows)[id].taskType
    {
      MoveIsStep(move, cfg, self, env, Now(), k, HandlerExit(ok));
      Yield(env(k));
      MoveTo(Running(id, Exited(ok)));
    }

    /** The deadline loop sees that the process ended, and how. */
    method NoticeEnd(id: TaskId, ok: bool, env: Interference, k: nat, ghost move: Move)
      requires Amid(move, cfg, self, env) && Position() == Running(id, Exited(ok)) && id in repo.rows
      modifies this`clock, this`threads, repo
      ensures Now() == move(old(Now()), k, Notice)
      ensures Position() == (if ok then Finished(id) else Raised(id))
      ensures id in repo.rows && repo.rows[id].taskType == old(repo.rows)[id].taskType
    {
      MoveIsStep(move, cfg, self, env, Now(), k, Notice);
      Yield(env(k));
      EnterStage(if ok then Finished(id) else Raised(id));
    }

    /** The deadline passed, or the worker is stopping. */
    method StopHandler(id: TaskId, env: Interference, k: nat, ghost move: Move)
      requires Amid(move, cfg, self, env) && Position() == Running(id, Live) && id in repo.rows
      modifies this`clock, this`threads, repo
      ensures Now() == move(old(Now()), k, Terminate)
      ensures Position() == Stopping(id, Live)
      ensures id in repo.rows && repo.rows[id].taskType == old(repo.rows)[id].taskType
    {
      MoveIsStep(move, cfg, self, env, Now(), k, Terminate);
      Yield(env(k));
      EnterStage(Stopping(id, Live));
    }

    /** The stopped process is gone. */
    method ReapHandler(id: TaskId, env: Interference, k: nat, ghost move: Move)
      requires Amid(move, cfg, self, env) && Position() == Stopping(id, Live) && id in repo.rows
      modifies this`clock, this`threads, repo
      ensures Now() == move(old(Now()), k, Reap)
      ensures Position() == Raised(id)
      ensures id in repo.rows && repo.rows[id].taskType == old(repo.rows)[id].taskType
    {
      MoveIsStep(move, cfg, self, env, Now(), k, Reap);
      Yield(env(k));
      EnterStage(Raised(id));
    }

    /** Write the failure, over whatever the handler wrote. */
    method RecordFailure(id: TaskId, env: Interference, k: nat, ghost move: Move)
      requires Amid(move, cfg, self, env) && Position() == Raised(id) && id in repo.rows
      modifies this`clock, this`threads, repo
      ensures Now() == move(old(Now()), k, MarkFailed)
      ensures Position() == Finished(id)
      ensures id in repo.rows && repo.rows[id].taskType == old(repo.rows)[id].taskType
    {
      MoveIsStep(move, cfg, self, env, Now(), k, MarkFailed);
      Yield(env(k));
      var _ := repo.UpdateStatus(id, FAILED, clock);
      MoveTo(Finished(id));
    }

    /** Read status and retry count to decide on a retry. */
    method InspectRow(id: TaskId, env: Interference, k: nat, ghost move: Move) returns (retry: bool, seen: nat)
      requires Amid(move, cfg, self, env) && Position() == Finished(id) && id in repo.rows
      modifies this`clock, this`threads, repo
      ensures Now() == move(old(Now()), k, Inspect)
      ensures Position() == (if retry then Bumping(id, seen) else Idle)
      ensures id in repo.rows && repo.rows[id].taskType == old(repo.rows)[id].taskType
      ensures retry <==> RetryDue(cfg, Exec(cfg, old(Now()), env(k)).rows, id)
    {
      MoveIsStep(move, cfg, self, env, Now(), k, Inspect);
      Yield(env(k));
      seen := repo.rows[id].retryCount;
      retry := repo.rows[id].status == FAILED && seen < cfg.maxRetry;
      MoveTo(if retry then Bumping(id, seen) else Idle);
    }

    /** Write back the retry count read before. */
    method CountRetry(id: TaskId, seen: nat, env: Interference, k: nat, ghost move: Move)
      requires Amid(move, cfg, self, env) && Position() == Bumping(id, seen) && id in repo.rows
      modifies this`clock, this`threads, repo
      ensures Now() == move(old(Now()), k, Bump)
      ensures Position() == Requeueing(id)
      ensures id in repo.rows && repo.rows[id].taskType == old(repo.rows)[id].taskType
    {
      MoveIsStep(move, cfg, self, env, Now(), k, Bump);
      Yield(env(k));
      repo.rows := repo.rows[id := repo.rows[id].(retryCount := seen + 1)];
      MoveTo(Requeueing(id));
    }

    /** Put the task back. */
    method PutBack(id: TaskId, env: Interference, k: nat, ghost move: Move)
      requires Amid(move, cfg, self, env) && Position() == Requeueing(id) && id in repo.rows
      modifies this`clock, this`threads, repo
      ensures Now() == move(old(Now()), k, Requeue)
      ensures Position() == Idle && id in repo.rows && repo.rows[id].taskType == old(repo.rows)[id].taskType
    {
      MoveIsStep(move, cfg, self, env, Now(), k, Requeue);
      Yield(env(k));
      var _ := repo.UpdateStatus(id, PENDING, clock);
      MoveTo(Idle);
    }

    /** A delivered task is looked up, and claimed if it is wanted. */
    method ClaimDelivered(id: TaskId, env: Interference, from: nat, ghost move: Move) returns (ours: bool, actions: seq<Action>)
      requires Amid(move, cfg, self, env) && Position() == Delivered(id)
      modifies this`clock, this`threads, repo
      ensures Now() == Interleaved(old(Now()), actions, move, from)
      ensures actions == [Look] || actions == [Look, Claim]
      ensures Position() == (if ours then Claimed(id) else Idle) && (ours ==> id in repo.rows)
      ensures |actions| > 1 <==> IsPending(Exec(cfg, old(Now()), env(from)).rows, id)
      ensures ours <==> |actions| > 1 && IsPending(Exec(cfg, move(old(Now()), from, Look), env(from + 1)).rows, id)
    {
      ghost var s0 := Now();
      StartsWith(s0, Look, move, from);
      ours := ReadDelivered(id, env, from, move);
      actions := [Look];
      if ours {
        GoesOn(s0, [Look], Claim, [Look, Claim], move, from);
        ours := ClaimWanted(id, env, from + 1, move);
        actions := [Look, Claim];
      }
    }

    /** From a delivery, or from a poll that already claimed, to a stamped claim, or back to idle. */
    method Acquire(id: TaskId, polled: bool, env: Interference, from: nat, ghost move: Move) returns (claimed: bool, actions: seq<Action>)
      requires Amid(move, cfg, self, env)
      requires Position() == if polled then Polled(id) else Delivered(id)
      modifies this`clock, this`threads, repo
      ensures Now() == Interleaved(old(Now()), actions, move, from) && IsAcquisition(actions, polled, claimed, workerId)
      ensures Position() == (if claimed then Stamped(id) else Idle) && (claimed ==> id in repo.rows)
      ensures if polled then claimed <==> IsRunning(Exec(cfg, old(Now()), env(from)).rows, id)
              else
                && (|actions| > 1 <==> IsPending(Exec(cfg, old(Now()), env(from)).rows, id))
                && (claimed <==> |actions| > 1 && IsPending(Exec(cfg, move(old(Now()), from, Look), env(from + 1)).rows, id))
    {
      ghost var s0 := Now();
      if polled {
        StartsWith(s0, Recheck, move, from);
        claimed := RecheckPolled(id, env, from, move);
        actions := [Recheck];
      } else {
        claimed, actions := ClaimDelivered(id, env, from, move);
      }
      if claimed {
        GoesOn(s0, actions, Stamp(workerId), actions + [Stamp(workerId)], move, from);
        StampClaim(id, env, from + |actions|, move);
        actions := actions + [Stamp(workerId)];
      }
    }

    /** The process writes what it writes. */
    method HandlerRuns(id: TaskId, writes: seq<bool>, env: Interference, from: nat, ghost move: Move)
      requires Amid(move, cfg, self, env) && Position() == Running(id, Live) && id in repo.rows
      modifies this`clock, this`threads, repo
      ensures Now() == Interleaved(old(Now()), Writes(writes), move, from)
      ensures Position() == Running(id, Live) && id in repo.rows && repo.rows[id].taskType == old(repo.rows)[id].taskType
    {
      ghost var s0, all := Now(), Writes(writes);
      for k := 0 to |writes|
        invariant Now() == Interleaved(s0, all[..k], move, from)
        invariant Position() == Running(id, Live) && id in repo.rows && repo.rows[id].taskType == s0.rows[id].taskType
      {
        GoesOn(s0, all[..k], all[k], all[..k + 1], move, from);
        HandlerCommits(id, writes[k], env, from + k, move);
      }
      assert all[..|writes|] == all;
    }

    /** The process exits by itself, or is stopped and reaped. */
    method SeeEnd(id: TaskId, ending: Ending, env: Interference, from: nat, ghost move: Move)
      requires Amid(move, cfg, self, env) && Position() == Running(id, Live) && id in repo.rows
      modifies this`clock, this`threads, repo
      ensures Now() == Interleaved(old(Now()), EndActions(ending), move, from)
      ensures Position() == (if ending == Returned(true) then Finished(id) else Raised(id))
      ensures id in repo.rows && repo.rows[id].taskType == old(repo.rows)[id].taskType
    {
      ghost var s0 := Now();
      if ending.Returned? {
        StartsWith(s0, HandlerExit(ending.ok), move, from);
        GoesOn(s0, [HandlerExit(ending.ok)], Notice, EndActions(ending), move, from);
        HandlerEnds(id, ending.ok, env, from, move);
        NoticeEnd(id, ending.ok, env, from + 1, move);
      } else {
        StartsWith(s0, Terminate, move, from);
        GoesOn(s0, [Terminate], Reap, EndActions(ending), move, from);
        StopHandler(id, env, from, move);
        ReapHandler(id, env, from + 1, move);
      }
    }

    /** The live process writes what it writes, then exits by itself or is stopped and reaped. */
    method RunHandler(id: TaskId, attempt: Attempt, env: Interference, from: nat, ghost move: Move)
      requires Amid(move, cfg, self, env) && Position() == Running(id, Live) && id in repo.rows
      modifies this`clock, this`threads, repo
      ensures Now() == Interleaved(old(Now()), HandlerActions(attempt), move, from)
      ensures Position() == (if attempt.ending == Returned(true) then Finished(id) else Raised(id))
      ensures id in repo.rows && repo.rows[id].taskType == old(repo.rows)[id].taskType
    {
      Continues(Now(), Writes(attempt.writes), EndActions(attempt.ending), HandlerActions(attempt), move, from);
      HandlerRuns(id, attempt.writes, env, from, move);
      SeeEnd(id, attempt.ending, env, from + |attempt.writes|, move);
    }

    /** Launch the handler and see it end; anything but a clean end is recorded as FAILED. */
    method RunAttempt(id: TaskId, attempt: Attempt, env: Interference, from: nat, ghost move: Move)
      requires Amid(move, cfg, self, env) && Position() == Stamped(id) && id in repo.rows
      modifies this`clock, this`threads, repo
      ensures Now() == Interleaved(old(Now()), AttemptActions(cfg, old(repo.rows)[id].taskType, attempt), move, from)
      ensures Position() == Finished(id) && id in repo.rows && repo.rows[id].taskType == old(repo.rows)[id].taskType
    {
      ghost var s0 := Now();
      var actions := [Launch(attempt.started)];
      StartsWith(s0, Launch(attempt.started), move, from);
      LaunchHandler(id, attempt.started, env, from, move);
      if HasHandler(repo.rows[id].taskType) {
        if cfg.maxTaskRuntime > 0 && attempt.started {
          Continues(s0, actions, HandlerActions(attempt), actions + HandlerActions(attempt), move, from);
          RunHandler(id, attempt, env, from + 1, move);
          actions := actions + HandlerActions(attempt);
        }
        if !(cfg.maxTaskRuntime > 0 && attempt.started && attempt.ending == Returned(true)) {
          GoesOn(s0, actions, MarkFailed, actions + [MarkFailed], move, from);
          RecordFailure(id, env, from + |actions|, move);
          actions := actions + [MarkFailed];
        }
      }
      assert actions == AttemptActions(cfg, s0.rows[id].taskType, attempt);
    }

    /** Decide on a retry: count it in one transaction, put the task back in the next, publish it again. */
    method Settle(id: TaskId, env: Interference, from: nat, ghost move: Move) returns (retried: bool)
      requires Amid(move, cfg, self, env) && Position() == Finished(id) && id in repo.rows && broker.Valid()
      modifies this`clock, this`threads, repo, broker`undelivered, broker`nextId
      ensures Now() == Interleaved(old(Now()), SettleActions(retried), move, from)
      ensures retried <==> RetryDue(cfg, Exec(cfg, old(Now()), env(from)).rows, id)
      ensures Position() == Idle && broker.Valid() && id in repo.rows && repo.rows[id].taskType == old(repo.rows)[id].taskType
      ensures if retried && broker.enabled
              then Queued(old(broker.undelivered), broker.undelivered, Message(old(broker.nextId), id))
              else broker.undelivered == old(broker.undelivered)
    {
      ghost var s0 := Now();
      StartsWith(s0, Inspect, move, from);
      var seen;
      retried, seen := InspectRow(id, env, from, move);
      if retried {
        GoesOn(s0, [Inspect], Bump, [Inspect, Bump], move, from);
        CountRetry(id, seen, env, from + 1, move);
        GoesOn(s0, [Inspect, Bump], Requeue, SettleActions(true), move, from);
        PutBack(id, env, from + 2, move);
        var _ := broker.PublishTask(id);
      }
    }

    /** A stamped claim: run the handler, then settle. */
    method Attend(id: TaskId, attempt: Attempt, env: Interference, from: nat, ghost move: Move) returns (retried: bool)
      requires Amid(move, cfg, self, env) && Position() == Stamped(id) && id in repo.rows && broker.Valid()
      modifies this`clock, this`threads, repo, broker`undelivered, broker`nextId
      ensures Now() == Interleaved(old(Now()), AttemptActions(cfg, old(repo.rows)[id].taskType, attempt) + SettleActions(retried), move, from)
      ensures retried <==>
                var attempted := AttemptActions(cfg, old(repo.rows)[id].taskType, attempt);
                RetryDue(cfg, Exec(cfg, Interleaved(old(Now()), attempted, move, from), env(from + |attempted|)).rows, id)
      ensures Position() == Idle && broker.Valid() && id in repo.rows && repo.rows[id].taskType == old(repo.rows)[id].taskType
      ensures if retried && broker.enabled
              then Queued(old(broker.undelivered), broker.undelivered, Message(old(broker.nextId), id))
              else broker.undelivered == old(broker.undelivered)
    {
      ghost var s0 := Now();
      var attempted := AttemptActions(cfg, repo.rows[id].taskType, attempt);
      RunAttempt(id, attempt, env, from, move);
      retried := Settle(id, env, from + |attempted|, move);
      Continues(s0, attempted, SettleActions(retried), attempted + SettleActions(retried), move, from);
    }

    /** Acquire a task and, if the claim is ours, attend to it. */
    method TakeAndAttend(id: TaskId, polled: bool, attempt: Attempt, env: Interference, ghost move: Move)
      returns (claimed: bool, retried: bool, acquired: seq<Action>, taskType: TaskType)
      requires Amid(move, cfg, self, env) && broker.Valid()
      requires Position() == if polled then Polled(id) else Delivered(id)
      modifies this`clock, this`threads, repo, broker`undelivered, broker`nextId
      ensures IsAcquisition(acquired, polled, claimed, workerId)
      ensures Now() == Interleaved(old(Now()), ExecutionActions(acquired, claimed, cfg, taskType, attempt, retried), move, 0)
      ensures Position() == Idle && broker.Valid()
      ensures claimed ==> id in repo.rows && repo.rows[id].taskType == taskType
      ensures if claimed && retried && broker.enabled
              then Queued(old(broker.undelivered), broker.undelivered, Message(old(broker.nextId), id))
              else broker.undelivered == old(broker.undelivered)
    {
      ghost var s0 := Now();
      claimed, acquired := Acquire(id, polled, env, 0, move);
      retried, taskType := false, AGENT_TASK;
      if claimed {
        taskType := repo.rows[id].taskType;
        retried := Attend(id, attempt, env, |acquired|, move);
        Continues(s0, acquired, AttemptActions(cfg, taskType, attempt) + SettleActions(retried),
                  ExecutionActions(acquired, true, cfg, taskType, attempt, retried), move, 0);
      } else {
        assert ExecutionActions(acquired, false, cfg, taskType, attempt, retried) == acquired;
      }
    }

    /**
     One task execution, from its delivery (or its poll) back to idle: just these transactions of this thread,
     interleaved with whatever the others do. A retried task is published again, and the message that brought
     the task is acknowledged on every path.
     */
    method ExecuteTask(id: TaskId, polled: bool, messageId: Option<MessageId>, attempt: Attempt, env: Interference, ghost move: Move)
      returns (claimed: bool, retried: bool, acquired: seq<Action>, taskType: TaskType)
      requires Amid(move, cfg, self, env) && broker.Valid()
      requires Position() == if polled then Polled(id) else Delivered(id)
      modifies this`clock, this`threads, repo, broker`undelivered, broker`nextId, broker`pending
      ensures IsAcquisition(acquired, polled, claimed, workerId)
      ensures Now() == Interleaved(old(Now()), ExecutionActions(acquired, claimed, cfg, taskType, attempt, retried), move, 0)
      ensures Position() == Idle && broker.Valid()
      ensures claimed ==> id in repo.rows && repo.rows[id].taskType == taskType
      ensures if claimed && retried && broker.enabled
              then Queued(old(broker.undelivered), broker.undelivered, Message(old(broker.nextId), id))
              else broker.undelivered == old(broker.undelivered)
      ensures broker.pending == if broker.enabled && messageId.Some?
                                then Unacknowledged(old(broker.pending), messageId.value) else old(broker.pending)
    {
      claimed, retried, acquired, taskType := TakeAndAttend(id, polled, attempt, env, move);
      broker.AckTask(messageId);
    }

    /**
     Reclaimed deliveries are drained in order before new ones are asked for, at most once per
     interval, and none of a reclaimed batch is dropped.
     */
    method ClaimPendingMessage(now: int, concurrency: nat) returns (m: Option<Message>)
      requires broker.Valid()
      modifies this`pendingMessages, this`nextPendingReclaim, broker`pending
      ensures broker.Valid() && MessagesOf(broker.pending) == MessagesOf(old(broker.pending))
      ensures broker.enabled ==>
                var reclaimed := Reclaimable(old(pendingMessages), old(nextPendingReclaim), old(broker.pending), now, concurrency);
                if reclaimed == [] then m == None && pendingMessages == [] else m == Some(reclaimed[0]) && pendingMessages == reclaimed[1..]
      ensures if old(pendingMessages) == [] && now >= old(nextPendingReclaim)
              then nextPendingReclaim == now + PENDING_RECLAIM_INTERVAL_MS
              else nextPendingReclaim == old(nextPendingReclaim) && broker.pending == old(broker.pending)
    {
      if pendingMessages != [] {
        m := Some(pendingMessages[0]);
        pendingMessages := pendingMessages[1..];
        return;
      }
      if now < nextPendingReclaim {
        return None;
      }
      nextPendingReclaim := now + PENDING_RECLAIM_INTERVAL_MS;
      var claimed := broker.ClaimPendingTasks(now, PENDING_RECLAIM_MIN_IDLE_MS, Max(10, 2 * concurrency));
      pendingMessages := pendingMessages + claimed;
      if pendingMessages == [] {
        return None;
      }
      m := Some(pendingMessages[0]);
      pendingMessages := pendingMessages[1..];
    }

    /** Taking up a message moves this thread only. */
    method TakeUp(id: TaskId)
      requires Position() == Idle
      modifies this`threads
      ensures Now() == Next(cfg, old(Now()), Do(self, Deliver(id))) && Position() == Delivered(id)
    {
      MoveTo(Delivered(id));
    }

    /** Without a message the table is polled for its oldest PENDING task. */
    method PollTable() returns (polled: Option<TaskId>)
      requires Position() == Idle
      modifies this`threads, repo
      ensures polled.None? ==> Now() == old(Now()) && forall t :: t in repo.rows ==> repo.rows[t].status != PENDING
      ensures polled.Some? ==>
                && IsOldestPending(old(repo.rows), polled.value)
                && Now() == Next(cfg, old(Now()), Do(self, Poll(polled.value))) && Position() == Polled(polled.value)
    {
      polled := repo.ClaimTask(None, clock);
      if polled.Some? {
        threads := threads[self := Thread(Polled(polled.value), clock, clock)];
      }
    }

    /** The message a round takes up: a reclaimed one, else the first undelivered one, as long as there is a broker. */
    ghost function NextMessage(now: int, concurrency: nat): Option<Message>
      reads this, broker
    {
      if !broker.enabled then None
      else
        var reclaimed := Reclaimable(pendingMessages, nextPendingReclaim, broker.pending, now, concurrency);
        if reclaimed != [] then Some(reclaimed[0])
        else if broker.undelivered != [] then Some(broker.undelivered[0])
        else None
    }

    /** Take up a message and execute its task. */
    method WorkOnMessage(m: Message, attempt: Attempt, env: Interference) returns (ghost own: seq<Action>)
      requires NeverActsAs(env, self) && broker.Valid() && Position() == Idle
      modifies this`clock, this`threads, repo, broker`undelivered, broker`nextId, broker`pending
      ensures Now() == Interleaved(Next(cfg, old(Now()), Do(self, Deliver(m.task))), own, MoveOf(cfg, self, env), 0)
      ensures IsExecution(own, false, cfg, attempt, workerId)
      ensures Position() == Idle && broker.Valid()
      ensures broker.enabled ==> broker.pending == Unacknowledged(old(broker.pending), m.id)
    {
      ghost var s0 := Now();
      TakeUp(m.task);
      MoveIsAmid(cfg, self, env);
      var claimed, retried, acquired, taskType := ExecuteTask(m.task, false, Some(m.id), attempt, env, MoveOf(cfg, self, env));
      own := ExecutionActions(acquired, claimed, cfg, taskType, attempt, retried);
    }

    /** Execute a polled task. */
    method WorkOnPolled(id: TaskId, attempt: Attempt, env: Interference) returns (ghost own: seq<Action>)
      requires NeverActsAs(env, self) && broker.Valid() && Position() == Polled(id)
      modifies this`clock, this`threads, repo, broker`undelivered, broker`nextId, broker`pending
      ensures Now() == Interleaved(old(Now()), own, MoveOf(cfg, self, env), 0) && IsExecution(own, true, cfg, attempt, workerId)
      ensures Position() == Idle && broker.Valid() && broker.pending == old(broker.pending)
    {
      MoveIsAmid(cfg, self, env);
      var claimed, retried, acquired, taskType := ExecuteTask(id, true, None, attempt, env, MoveOf(cfg, self, env));
      own := ExecutionActions(acquired, claimed, cfg, taskType, attempt, retried);
    }

    /**
     One round of the worker loop: the next message's task is executed and the message acknowledged; without a
     message the oldest PENDING task is polled and executed; and there is nothing to do only if none is PENDING.
     */
    method ProcessNextTask(now: int, concurrency: nat, attempt: Attempt, env: Interference) returns (ghost first: Option<Action>, ghost own: seq<Action>)
      requires NeverActsAs(env, self) && broker.Valid() && Position() == Idle
      modifies this`clock, this`threads, this`pendingMessages, this`nextPendingReclaim, repo
      modifies broker`undelivered, broker`nextId, broker`pending
      ensures Position() == Idle && broker.Valid()
      ensures Now() == Interleaved(if first.Some? then Next(cfg, old(Now()), Do(self, first.value)) else old(Now()), own, MoveOf(cfg, self, env), 0)
      ensures match old(NextMessage(now, concurrency))
              case Some(m) =>
                && first == Some(Deliver(m.task)) && IsExecution(own, false, cfg, attempt, workerId)
                && forall e :: e in broker.pending ==> e.message.id != m.id
              case None =>
                match first
                case Some(a) => a.Poll? && IsOldestPending(old(repo.rows), a.task) && IsExecution(own, true, cfg, attempt, workerId)
                case None => own == [] && forall t :: t in old(repo.rows) ==> old(repo.rows)[t].status != PENDING
    {
      ghost var s0 := Now();
      var m := None;
      if broker.enabled {
        m := ClaimPendingMessage(now, concurrency);
        if m.None? {
          m := broker.ConsumeTask(now);
        }
      }
      if m.Some? {
        first := Some(Deliver(m.value.task));
        own := WorkOnMessage(m.value, attempt, env);
      } else {
        var polled := PollTable();
        first, own := None, [];
        if polled.Some? {
          first := Some(Poll(polled.value));
          own := WorkOnPolled(polled.value, attempt, env);
        }
      }
    }

    /** The recovery itself. */
    method Recover(now: int, env: seq<Label>) returns (recovered: nat)
      requires Position() == Idle && now == clock && ByOthers(env, self)
      modifies this`clock, this`threads, repo
      ensures Now() == Exec(cfg, old(Now()), [Do(self, ReadStale)] + env + [Do(self, CommitRecovery)]) && Position() == Idle
      ensures recovered == |StaleIds(old(repo.rows), now, StaleAfterMs(cfg))|
    {
      ReadInterferenceCommit(cfg, Now(), env, self);
      var runtime := if cfg.maxTaskRuntime > 1 then cfg.maxTaskRuntime else 1;
      var grace := if cfg.heartbeatInterval * 2 > 60 then cfg.heartbeatInterval * 2 else 60;
      var stale := repo.FindStale(Some(1000 * runtime + 1000 * grace), now);
      MoveTo(Recovering(stale.value));
      Yield(env);
      CommitsWhatWasRead(cfg, Now(), self, stale.value);
      recovered := repo.PutBack(stale.value);
      MoveTo(Idle);
    }

    /** At most one recovery per interval: the stale rows are read, anybody may move, and then they are written back. */
    method RecoverStaleIfNeeded(now: int, env: seq<Label>) returns (recovered: nat)
      requires Position() == Idle && now == clock && ByOthers(env, self)
      modifies this`lastRecovery, this`clock, this`threads, repo
      ensures now - old(lastRecovery) < STALE_RECOVERY_INTERVAL_MS ==>
                recovered == 0 && Now() == old(Now()) && lastRecovery == old(lastRecovery)
      ensures now - old(lastRecovery) >= STALE_RECOVERY_INTERVAL_MS ==>
                && lastRecovery == now
                && Now() == Exec(cfg, old(Now()), [Do(self, ReadStale)] + env + [Do(self, CommitRecovery)])
                && recovered == |StaleIds(old(repo.rows), now, StaleAfterMs(cfg))|
      ensures Position() == Idle
    {
      if now - lastRecovery < STALE_RECOVERY_INTERVAL_MS {
        return 0;
      }
      lastRecovery := now;
      recovered := Recover(now, env);
    }
  }

  // ---------------------------------------------------------------------------------------
  // Running one handler process against its deadline.

  /**
   A handler process started at `start`: when it ends by itself, with which outcome, and how long
   after being asked to terminate it goes (None: only when killed).
   */
  datatype HandlerProcess = HandlerProcess(start: int, exitsAt: int, ok: bool, yieldsAfter: Option<nat>)

  datatype RunOutcome = Completed | HandlerFailed | TimedOut | WorkerStopped | NoRuntime

  function Min(a: int, b: int): int { if a < b then a else b }

  /** Ask, wait one grace; kill, and the process is gone before the second grace ends. */
  method TerminateProcess(p: HandlerProcess, now: int) returns (deadAt: int)
    requires p.exitsAt > now
    ensures now <= deadAt <= now + 2 * PROCESS_STOP_GRACE_MS
    ensures deadAt <= p.exitsAt || deadAt == now + PROCESS_STOP_GRACE_MS
  {
    var gone := if p.yieldsAfter.Some? then Min(p.exitsAt, now + p.yieldsAfter.value) else p.exitsAt;
    deadAt := Min(gone, now + PROCESS_STOP_GRACE_MS);
  }

  /**
   The deadline loop. `stopsAt` is when the worker is told to stop. The process is dead on return,
   no later than the runtime limit plus both stop graces; and while the worker is not told to stop,
   the result is Completed exactly when the process ended well by the deadline.
   */
  method RunHandlerWithTimeout(cfg: Config, p: HandlerProcess, stopsAt: int) returns (outcome: RunOutcome, deadAt: int)
    requires p.exitsAt >= p.start
    ensures outcome == NoRuntime <==> cfg.maxTaskRuntime <= 0
    ensures outcome != NoRuntime ==>
              && p.start <= deadAt <= p.start + 1000 * cfg.maxTaskRuntime + 2 * PROCESS_STOP_GRACE_MS
              && (outcome == Completed || outcome == HandlerFailed ==>
                    deadAt == p.exitsAt <= p.start + 1000 * cfg.maxTaskRuntime && p.ok == (outcome == Completed))
              && (outcome == WorkerStopped ==> stopsAt <= deadAt)
              && (outcome == TimedOut ==> p.exitsAt > p.start + 1000 * cfg.maxTaskRuntime)
    ensures cfg.maxTaskRuntime > 0 && stopsAt > p.start + 1000 * cfg.maxTaskRuntime ==>
              (outcome == Completed <==> p.ok && p.exitsAt <= p.start + 1000 * cfg.maxTaskRuntime)
  {
    if cfg.maxTaskRuntime <= 0 {
      return NoRuntime, p.start;
    }
    var deadline := p.start + 1000 * cfg.maxTaskRuntime;
    var now := p.start;
    while now < p.exitsAt
      invariant p.start <= now <= Min(p.exitsAt, deadline)
      decreases p.exitsAt - now
    {
      var remaining := deadline - now;
      if remaining <= 0 {
        deadAt := TerminateProcess(p, now);
        return TimedOut, deadAt;
      }
      if stopsAt <= now {
        deadAt := TerminateProcess(p, now);
        return WorkerStopped, deadAt;
      }
      now := Min(p.exitsAt, now + Min(JOIN_SLICE_MS, remaining));
    }
    return if p.ok then Completed else HandlerFailed, now;
  }
}
