/**
 What one execution does to its task: the status a handler's attempt leaves, and when the task is put back
 for a retry, whatever the other threads do meanwhile short of a stale recovery.
 */
module TaskOutcomes {
  import opened Wrappers
  import opened TaskTable
  import opened LeaseProtocol
  import opened LeaseRecovery
  import opened TaskWorker

  /** None of the others' steps is a recovery commit. */
  ghost predicate Undisturbed(env: Interference) { forall k :: NoRecovery(env(k)) }

  /** Others leave a held row and its holder alone. */
  lemma OtherSparesHeldRow(cfg: Config, s: State, l: Label, i: ThreadId, t: TaskId)
    requires Inv(s) && i in s.threads && Holds(s.threads[i], t)
    requires (l.Do? ==> l.thread != i) && !(l.Do? && l.action.CommitRecovery?)
    ensures var s' := Next(cfg, s, l);
            Inv(s') && i in s'.threads && s'.threads[i] == s.threads[i] && t in s.rows && t in s'.rows && s'.rows[t] == s.rows[t]
  {
    StepKeepsInv(cfg, s, l);
    assert HolderMatchesRow(s.rows, s.threads[i]);
    if l.Do? && Act(cfg, s.clock, s.rows, ThreadOf(s, l.thread), l.action).Some? {
      assert l.thread in s.threads ==> !Holds(s.threads[l.thread], t) && HolderMatchesRow(s.rows, s.threads[l.thread]);
      ActIsLocal(cfg, s.clock, s.rows, ThreadOf(s, l.thread), l.action);
    }
  }

  lemma {:induction false} OthersSpareHeldRow(cfg: Config, s: State, run: seq<Label>, i: ThreadId, t: TaskId)
    requires Inv(s) && i in s.threads && Holds(s.threads[i], t) && ByOthers(run, i) && NoRecovery(run)
    ensures var s' := Exec(cfg, s, run);
            Inv(s') && i in s'.threads && s'.threads[i] == s.threads[i] && t in s.rows && t in s'.rows && s'.rows[t] == s.rows[t]
    decreases |run|
  {
    assert HolderMatchesRow(s.rows, s.threads[i]);
    if run != [] {
      assert run[0] in run;
      OtherSparesHeldRow(cfg, s, run[0], i, t);
      var rest := run[1..];
      forall l | l in rest && l.Do?
        ensures l.thread != i
      {
        assert l in run;
      }
      assert forall k :: 0 <= k < |rest| ==> rest[k] == run[k + 1];
      OthersSpareHeldRow(cfg, Next(cfg, s, run[0]), rest, i, t);
    }
  }

  /** Where a holder stands with its task: its stage, and the row's status and retry count. */
  datatype Standing = Standing(pc: Pc, status: TaskStatus, count: nat)

  ghost predicate Stands(s: State, i: ThreadId, t: TaskId, x: Standing, taskType: TaskType) {
    && Inv(s) && i in s.threads && s.threads[i].pc == x.pc
    && t in s.rows && s.rows[t].status == x.status && s.rows[t].retryCount == x.count && s.rows[t].taskType == taskType
  }

  /** What the holder's own next transaction makes of that, for the transactions of an execution. */
  function Then(cfg: Config, t: TaskId, taskType: TaskType, x: Standing, a: Action): Option<Standing> {
    match (a, x.pc)
    case (Launch(started), Stamped(u)) =>
      if u != t then None
      else if !HasHandler(taskType) then Some(Standing(Finished(t), FAILED, x.count))
      else if cfg.maxTaskRuntime <= 0 || !started then Some(x.(pc := Raised(t)))
      else Some(x.(pc := Running(t, Live)))
    case (HandlerWrite(success), Running(u, Live)) => if u != t then None else Some(x.(status := if success then SUCCESS else FAILED))
    case (HandlerExit(ok), Running(u, Live)) => if u != t then None else Some(x.(pc := Running(t, Exited(ok))))
    case (Notice, Running(u, Exited(ok))) => if u != t then None else Some(x.(pc := if ok then Finished(t) else Raised(t)))
    case (Terminate, Running(u, Live)) => if u != t then None else Some(x.(pc := Stopping(t, Live)))
    case (Reap, Stopping(u, _)) => if u != t then None else Some(x.(pc := Raised(t)))
    case (MarkFailed, Raised(u)) => if u != t then None else Some(Standing(Finished(t), FAILED, x.count))
    case (Inspect, Finished(u)) =>
      if u != t then None
      else Some(x.(pc := if x.status == FAILED && x.count < cfg.maxRetry then Bumping(t, x.count) else Idle))
    case (Bump, Bumping(u, seen)) => if u != t then None else Some(x.(pc := Requeueing(t), count := seen + 1))
    case (Requeue, Requeueing(u)) => if u != t then None else Some(Standing(Idle, PENDING, x.count))
    case _ => None
  }

  function After(cfg: Config, t: TaskId, taskType: TaskType, x: Standing, actions: seq<Action>): Option<Standing> {
    if actions == [] then Some(x)
    else
      var last := |actions| - 1;
      var before := After(cfg, t, taskType, x, actions[..last]);
      if before == None then None else Then(cfg, t, taskType, before.value, actions[last])
  }

  lemma OwnStepLeads(cfg: Config, s: State, i: ThreadId, t: TaskId, x: Standing, taskType: TaskType, a: Action)
    requires Stands(s, i, t, x, taskType) && Then(cfg, t, taskType, x, a).Some?
    ensures Stands(Next(cfg, s, Do(i, a)), i, t, Then(cfg, t, taskType, x, a).value, taskType)
  {
    StepKeepsInv(cfg, s, Do(i, a));
  }

  /** One transaction of the holder, after whatever the others do. */
  lemma MoveLeads(cfg: Config, s: State, i: ThreadId, t: TaskId, x: Standing, taskType: TaskType, env: Interference, k: nat, a: Action)
    requires Stands(s, i, t, x, taskType) && Then(cfg, t, taskType, x, a).Some? && NeverActsAs(env, i) && Undisturbed(env)
    ensures Stands(MoveOf(cfg, i, env)(s, k, a), i, t, Then(cfg, t, taskType, x, a).value, taskType)
  {
    OthersSpareHeldRow(cfg, s, env(k), i, t);
    ThenStep(cfg, s, env(k), Do(i, a));
    OwnStepLeads(cfg, Exec(cfg, s, env(k)), i, t, x, taskType, a);
  }

  /** Every transaction leads where Then says. */
  ghost predicate Steady(stands: (State, Standing) -> bool, move: Move, cfg: Config, t: TaskId, taskType: TaskType) {
    forall s, x, k, a {:trigger stands(s, x), move(s, k, a)} ::
      stands(s, x) && Then(cfg, t, taskType, x, a).Some? ==> stands(move(s, k, a), Then(cfg, t, taskType, x, a).value)
  }

  /** Then so does every stretch of them. */
  lemma {:induction false} StretchLeads(stands: (State, Standing) -> bool, move: Move, cfg: Config, t: TaskId, taskType: TaskType,
                                        s: State, x: Standing, from: nat, actions: seq<Action>)
    requires Steady(stands, move, cfg, t, taskType) && stands(s, x) && After(cfg, t, taskType, x, actions).Some?
    ensures stands(Interleaved(s, actions, move, from), After(cfg, t, taskType, x, actions).value)
  {
    if actions != [] {
      var last := |actions| - 1;
      StretchLeads(stands, move, cfg, t, taskType, s, x, from, actions[..last]);
      assert stands(move(Interleaved(s, actions[..last], move, from), from + last, actions[last]),
                    Then(cfg, t, taskType, After(cfg, t, taskType, x, actions[..last]).value, actions[last]).value);
    }
  }

  lemma MovesLead(cfg: Config, s: State, i: ThreadId, t: TaskId, x: Standing, taskType: TaskType, env: Interference,
                  from: nat, actions: seq<Action>)
    requires Stands(s, i, t, x, taskType) && After(cfg, t, taskType, x, actions).Some? && NeverActsAs(env, i) && Undisturbed(env)
    ensures Stands(Interleaved(s, actions, MoveOf(cfg, i, env), from), i, t, After(cfg, t, taskType, x, actions).value, taskType)
  {
    var stands := (s', x') => Stands(s', i, t, x', taskType);
    var move := MoveOf(cfg, i, env);
    forall s', x', k, a | stands(s', x') && Then(cfg, t, taskType, x', a).Some?
      ensures stands(move(s', k, a), Then(cfg, t, taskType, x', a).value)
    {
      MoveLeads(cfg, s', i, t, x', taskType, env, k, a);
    }
    StretchLeads(stands, move, cfg, t, taskType, s, x, from, actions);
  }

  // ---------------------------------------------------------------------------------------
  // What an execution amounts to.

  lemma AfterMore(cfg: Config, t: TaskId, taskType: TaskType, x: Standing, actions: seq<Action>, a: Action, more: seq<Action>)
    requires more == actions + [a] && After(cfg, t, taskType, x, actions).Some?
    ensures After(cfg, t, taskType, x, more) == Then(cfg, t, taskType, After(cfg, t, taskType, x, actions).value, a)
  {
    assert more[..|actions|] == actions;
  }

  lemma {:induction false} AfterBoth(cfg: Config, t: TaskId, taskType: TaskType, x: Standing, a: seq<Action>, b: seq<Action>, all: seq<Action>)
    requires all == a + b && After(cfg, t, taskType, x, a).Some?
    ensures After(cfg, t, taskType, x, all) == After(cfg, t, taskType, After(cfg, t, taskType, x, a).value, b)
    decreases |b|
  {
    if b == [] {
      assert all == a;
    } else {
      var last := |b| - 1;
      AfterBoth(cfg, t, taskType, x, a, b[..last], a + b[..last]);
      assert all[..|all| - 1] == a + b[..last] && all[|all| - 1] == b[last];
    }
  }

  lemma AfterOne(cfg: Config, t: TaskId, taskType: TaskType, x: Standing, a: Action)
    ensures After(cfg, t, taskType, x, [a]) == Then(cfg, t, taskType, x, a)
  {
    assert [a][..0] == [];
  }

  lemma AfterTwo(cfg: Config, t: TaskId, taskType: TaskType, x: Standing, a: Action, b: Action)
    requires Then(cfg, t, taskType, x, a).Some?
    ensures After(cfg, t, taskType, x, [a, b]) == Then(cfg, t, taskType, Then(cfg, t, taskType, x, a).value, b)
  {
    AfterOne(cfg, t, taskType, x, a);
    AfterMore(cfg, t, taskType, x, [a], b, [a, b]);
  }

  function LastWritten(writes: seq<bool>, before: TaskStatus): TaskStatus {
    if writes == [] then before else if writes[|writes| - 1] then SUCCESS else FAILED
  }

  lemma {:induction false} AfterWrites(cfg: Config, t: TaskId, taskType: TaskType, x: Standing, writes: seq<bool>)
    requires x.pc == Running(t, Live)
    ensures After(cfg, t, taskType, x, Writes(writes)) == Some(x.(status := LastWritten(writes, x.status)))
    decreases |writes|
  {
    if writes != [] {
      var last := |writes| - 1;
      AfterWrites(cfg, t, taskType, x, writes[..last]);
      AfterMore(cfg, t, taskType, x, Writes(writes[..last]), HandlerWrite(writes[last]), Writes(writes));
    }
  }

  lemma AfterHandler(cfg: Config, t: TaskId, taskType: TaskType, x: Standing, attempt: Attempt)
    requires x.pc == Running(t, Live)
    ensures After(cfg, t, taskType, x, HandlerActions(attempt))
         == Some(Standing(if attempt.ending == Returned(true) then Finished(t) else Raised(t), LastWritten(attempt.writes, x.status), x.count))
  {
    var written := x.(status := LastWritten(attempt.writes, x.status));
    AfterWrites(cfg, t, taskType, x, attempt.writes);
    AfterBoth(cfg, t, taskType, x, Writes(attempt.writes), EndActions(attempt.ending), HandlerActions(attempt));
    match attempt.ending
    case Returned(ok) => AfterTwo(cfg, t, taskType, written, HandlerExit(ok), Notice);
    case Overran => AfterTwo(cfg, t, taskType, written, Terminate, Reap);
  }

  /** The status an attempt leaves behind. */
  function StatusLeft(cfg: Config, taskType: TaskType, attempt: Attempt): TaskStatus {
    if !HasHandler(taskType) || Fails(cfg, taskType, attempt) then FAILED else LastWritten(attempt.writes, RUNNING)
  }

  lemma AfterAttempt(cfg: Config, t: TaskId, taskType: TaskType, count: nat, attempt: Attempt)
    ensures After(cfg, t, taskType, Standing(Stamped(t), RUNNING, count), AttemptActions(cfg, taskType, attempt))
         == Some(Standing(Finished(t), StatusLeft(cfg, taskType, attempt), count))
  {
    var x, launch := Standing(Stamped(t), RUNNING, count), Launch(attempt.started);
    var actions := AttemptActions(cfg, taskType, attempt);
    AfterOne(cfg, t, taskType, x, launch);
    if !HasHandler(taskType) {
      assert actions == [launch];
    } else if !Runs(cfg, taskType, attempt) {
      AfterMore(cfg, t, taskType, x, [launch], MarkFailed, actions);
    } else {
      var handled := [launch] + HandlerActions(attempt);
      AfterBoth(cfg, t, taskType, x, [launch], HandlerActions(attempt), handled);
      AfterHandler(cfg, t, taskType, Standing(Running(t, Live), RUNNING, count), attempt);
      if Fails(cfg, taskType, attempt) {
        AfterMore(cfg, t, taskType, x, handled, MarkFailed, actions);
      } else {
        assert actions == handled;
      }
    }
  }

  lemma AfterSettling(cfg: Config, t: TaskId, taskType: TaskType, status: TaskStatus, count: nat)
    ensures var retry := status == FAILED && count < cfg.maxRetry;
            After(cfg, t, taskType, Standing(Finished(t), status, count), SettleActions(retry))
            == Some(if retry then Standing(Idle, PENDING, count + 1) else Standing(Idle, status, count))
  {
    var x := Standing(Finished(t), status, count);
    AfterOne(cfg, t, taskType, x, Inspect);
    if status == FAILED && count < cfg.maxRetry {
      AfterTwo(cfg, t, taskType, x, Inspect, Bump);
      AfterMore(cfg, t, taskType, x, [Inspect, Bump], Requeue, SettleActions(true));
    }
  }

  /**
   Attending to a claimed task, whatever others do short of a recovery: it ends with the status of the handler's last
   write if the handler returned cleanly; a failed attempt, and one whose last write is FAILED, is put back with one
   more retry counted while there are retries left, and ends FAILED when there are none.
   */
  lemma ExecutionLeaves(cfg: Config, s: State, i: ThreadId, t: TaskId, count: nat, taskType: TaskType, env: Interference, from: nat, attempt: Attempt)
    requires Stands(s, i, t, Standing(Stamped(t), RUNNING, count), taskType) && NeverActsAs(env, i) && Undisturbed(env)
    ensures var left := StatusLeft(cfg, taskType, attempt); var retry := left == FAILED && count < cfg.maxRetry;
            Stands(Interleaved(s, AttemptActions(cfg, taskType, attempt) + SettleActions(retry), MoveOf(cfg, i, env), from), i, t,
                   if retry then Standing(Idle, PENDING, count + 1) else Standing(Idle, left, count), taskType)
  {
    var left := StatusLeft(cfg, taskType, attempt);
    var retry := left == FAILED && count < cfg.maxRetry;
    var attempted, x := AttemptActions(cfg, taskType, attempt), Standing(Stamped(t), RUNNING, count);
    AfterAttempt(cfg, t, taskType, count, attempt);
    AfterSettling(cfg, t, taskType, left, count);
    AfterBoth(cfg, t, taskType, x, attempted, SettleActions(retry), attempted + SettleActions(retry));
    MovesLead(cfg, s, i, t, x, taskType, env, from, attempted + SettleActions(retry));
  }
}
