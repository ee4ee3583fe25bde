/**
 How a task can end other than by SUCCESS or a last FAILED: stranded in RUNNING by a handler that
 writes no status, and SUCCESS overwritten by FAILED.
 */
module LeaseEndings {
  import opened Wrappers
  import opened TaskTable
  import opened LeaseProtocol
  import opened LeaseExclusion
  import opened LeaseRecovery
  import opened LeaseProgress

  /** No crash and no recovery commit. */
  predicate Calm(run: seq<Label>) { NoRecovery(run) && forall k :: 0 <= k < |run| ==> !(run[k].Do? && run[k].action.Crash?) }

  // ---------------------------------------------------------------------------------------
  // Stranded in RUNNING.

  /** The task's handler returns while its row is still RUNNING. */
  predicate SilentExit(s: State, l: Label, t: TaskId) {
    && l.Do? && l.action == HandlerExit(true) && ThreadOf(s, l.thread).pc == Running(t, Live)
    && t in s.rows && s.rows[t].status == RUNNING
  }

  predicate SomeSilentExit(cfg: Config, s: State, run: seq<Label>, t: TaskId)
    decreases |run|
  {
    run != [] && (SilentExit(s, run[0], t) || SomeSilentExit(cfg, Next(cfg, s, run[0]), run[1..], t))
  }

  /** RUNNING, and nobody is left who would write to the row. */
  predicate LeftRunning(s: State, t: TaskId) {
    && t in s.rows && s.rows[t].status == RUNNING
    && forall i :: i in s.threads && Holds(s.threads[i], t) ==>
         s.threads[i].pc == Running(t, Exited(true)) || s.threads[i].pc == Finished(t)
  }

  /** What one thread's step does to a task it holds or claims. */
  lemma ActLeavesRunning(cfg: Config, now: int, rows: Rows, th: Thread, a: Action, t: TaskId)
    requires HolderMatchesRow(rows, th) && !a.Crash? && !a.CommitRecovery? && Act(cfg, now, rows, th, a).Some?
    ensures var (rows', th') := Act(cfg, now, rows, th, a).value;
            var left := t in rows && rows[t].status == RUNNING && (Holds(th, t) ==> th.pc == Running(t, Exited(true)) || th.pc == Finished(t));
            var left' := t in rows' && rows'[t].status == RUNNING && (Holds(th', t) ==> th'.pc == Running(t, Exited(true)) || th'.pc == Finished(t));
            var silent := a == HandlerExit(true) && th.pc == Running(t, Live) && rows[t].status == RUNNING;
            && (left' <==> left || silent)
            && (t in rows' <==> t in rows)
            && (!Holds(th, t) && Holds(th', t) ==> t in rows && rows[t].status == PENDING)
            && (silent ==> left')
  {
  }

  /** Single holders make it a matter of the one thread that acts. */
  lemma StepLeavesRunning(cfg: Config, s: State, l: Label, t: TaskId)
    requires Inv(s) && !(l.Do? && (l.action.Crash? || l.action.CommitRecovery?))
    ensures LeftRunning(Next(cfg, s, l), t) <==> LeftRunning(s, t) || SilentExit(s, l, t)
  {
    var s' := Next(cfg, s, l);
    if ThreadActs(cfg, s, l) {
      var k := l.thread;
      var th := ThreadOf(s, k);
      assert HolderMatchesRow(s.rows, th) by {
        assert k in s.threads ==> HolderMatchesRow(s.rows, s.threads[k]);
      }
      ActLeavesRunning(cfg, s.clock, s.rows, th, l.action, t);
      if j :| j in s.threads && j != k && Holds(s.threads[j], t) {
        OtherHolderDecides(cfg, s, l, j, t);
      } else {
        assert forall j :: j in s'.threads && j != k ==> j in s.threads && s'.threads[j] == s.threads[j];
        assert s'.threads[k] == Act(cfg, s.clock, s.rows, th, l.action).value.1;
        OnlyActorDecides(s, th, t, k);
        OnlyActorDecides(s', s'.threads[k], t, k);
      }
    }
  }

  lemma OnlyActorDecides(s: State, th: Thread, t: TaskId, k: ThreadId)
    requires th == ThreadOf(s, k) && forall j :: j in s.threads && j != k ==> !Holds(s.threads[j], t)
    ensures LeftRunning(s, t) <==>
              t in s.rows && s.rows[t].status == RUNNING && (Holds(th, t) ==> th.pc == Running(t, Exited(true)) || th.pc == Finished(t))
  {
  }

  /** While another thread holds the task, this step leaves task and holder alone. */
  lemma OtherHolderDecides(cfg: Config, s: State, l: Label, j: ThreadId, t: TaskId)
    requires Inv(s) && ThreadActs(cfg, s, l) && !l.action.CommitRecovery?
    requires j in s.threads && j != l.thread && Holds(s.threads[j], t)
    ensures LeftRunning(Next(cfg, s, l), t) <==> LeftRunning(s, t)
    ensures !SilentExit(s, l, t)
  {
    var s' := Next(cfg, s, l);
    var th := ThreadOf(s, l.thread);
    assert l.thread in s.threads ==> !Holds(s.threads[l.thread], t);
    assert HolderMatchesRow(s.rows, s.threads[j]);
    assert HolderMatchesRow(s.rows, th) by {
      assert l.thread in s.threads ==> HolderMatchesRow(s.rows, s.threads[l.thread]);
    }
    ActIsLocal(cfg, s.clock, s.rows, th, l.action);
    assert s'.rows[t] == s.rows[t] && !Holds(s'.threads[l.thread], t);
    assert s'.threads[j] == s.threads[j];
    assert forall k :: k in s'.threads && Holds(s'.threads[k], t) ==> k == j;
    assert forall k :: k in s.threads && Holds(s.threads[k], t) ==> k == j;
  }

  lemma {:induction false} LeftRunningExactlyWhen(cfg: Config, s: State, run: seq<Label>, t: TaskId)
    requires Inv(s) && Calm(run)
    ensures LeftRunning(Exec(cfg, s, run), t) <==> LeftRunning(s, t) || SomeSilentExit(cfg, s, run, t)
    decreases |run|
  {
    if run != [] {
      StepLeavesRunning(cfg, s, run[0], t);
      StepKeepsInv(cfg, s, run[0]);
      LeftRunningExactlyWhen(cfg, Next(cfg, s, run[0]), run[1..], t);
    }
  }

  /**
   Over every run without crashes and recoveries: a task created in it ends stranded exactly when one of its handlers
   returned leaving the row RUNNING, and the worker has let go of it.
   */
  lemma StrandedExactlyWhenSilent(cfg: Config, s: State, run: seq<Label>, t: TaskId)
    requires Quiescent(s) && t !in s.rows && Calm(run)
    ensures Stranded(Exec(cfg, s, run), t) <==> SomeSilentExit(cfg, s, run, t) && !Held(Exec(cfg, s, run), t)
  {
    LeftRunningExactlyWhen(cfg, s, run, t);
  }

  // ---------------------------------------------------------------------------------------
  // SUCCESS overwritten by FAILED.

  predicate Succeeded(s: State, t: TaskId) { t in s.rows && s.rows[t].status == SUCCESS }

  /** The row goes from SUCCESS to FAILED. */
  predicate Overwrite(cfg: Config, s: State, l: Label, t: TaskId) {
    Succeeded(s, t) && t in Next(cfg, s, l).rows && Next(cfg, s, l).rows[t].status == FAILED
  }

  /**
   A handler ends badly around its SUCCESS: it fails, or is stopped at its deadline, after the write; it writes FAILED
   itself; or it writes SUCCESS only while it is being stopped.
   */
  predicate BadEnd(s: State, l: Label, t: TaskId) {
    && l.Do?
    && match (l.action, ThreadOf(s, l.thread).pc)
       case (HandlerExit(false), Running(u, Live)) => u == t && Succeeded(s, t)
       case (Terminate, Running(u, Live)) => u == t && Succeeded(s, t)
       case (HandlerWrite(false), Running(u, Live)) => u == t && Succeeded(s, t)
       case (HandlerWrite(true), Stopping(u, Live)) => u == t && !Succeeded(s, t)
       case _ => false
  }

  /** The stages from a bad end to the FAILED write. */
  predicate WillFail(pc: Pc) { (pc.Running? && pc.proc == Exited(false)) || pc.Stopping? || pc.Raised? }

  /** SUCCESS, but its holder is on the way to writing FAILED. */
  predicate Condemned(s: State, t: TaskId) {
    Succeeded(s, t) && exists i :: i in s.threads && Holds(s.threads[i], t) && WillFail(s.threads[i].pc)
  }

  function Overwrites(cfg: Config, s: State, run: seq<Label>, t: TaskId): nat
    decreases |run|
  {
    if run == [] then 0 else Once(Overwrite(cfg, s, run[0], t)) + Overwrites(cfg, Next(cfg, s, run[0]), run[1..], t)
  }

  function BadEnds(cfg: Config, s: State, run: seq<Label>, t: TaskId): nat
    decreases |run|
  {
    if run == [] then 0 else Once(BadEnd(s, run[0], t)) + BadEnds(cfg, Next(cfg, s, run[0]), run[1..], t)
  }

  /** Until its handler is launched, a held row is RUNNING. */
  predicate RunsUntilLaunch(rows: Rows, th: Thread) {
    th.pc.Polled? || th.pc.Claimed? || th.pc.Stamped? ==> th.pc.task in rows && rows[th.pc.task].status == RUNNING
  }

  predicate AllRunUntilLaunch(s: State) { forall i :: i in s.threads ==> RunsUntilLaunch(s.rows, s.threads[i]) }

  lemma ActRunsUntilLaunch(cfg: Config, now: int, rows: Rows, th: Thread, a: Action)
    requires RunsUntilLaunch(rows, th) && !a.CommitRecovery? && Act(cfg, now, rows, th, a).Some?
    ensures var (rows', th') := Act(cfg, now, rows, th, a).value; RunsUntilLaunch(rows', th')
  {
  }

  lemma StepRunsUntilLaunch(cfg: Config, s: State, l: Label)
    requires Inv(s) && AllRunUntilLaunch(s) && !(l.Do? && l.action.CommitRecovery?)
    ensures AllRunUntilLaunch(Next(cfg, s, l))
  {
    var s' := Next(cfg, s, l);
    if ThreadActs(cfg, s, l) {
      var th := ThreadOf(s, l.thread);
      assert HolderMatchesRow(s.rows, th) && RunsUntilLaunch(s.rows, th) by {
        assert l.thread in s.threads ==> HolderMatchesRow(s.rows, s.threads[l.thread]);
      }
      ActRunsUntilLaunch(cfg, s.clock, s.rows, th, l.action);
      ActIsLocal(cfg, s.clock, s.rows, th, l.action);
      forall j | j in s'.threads && j != l.thread
        ensures RunsUntilLaunch(s'.rows, s'.threads[j])
      {
        OthersRunOn(s, s'.rows, l.thread, j);
      }
    }
  }

  lemma OthersRunOn(s: State, rows': Rows, i: ThreadId, j: ThreadId)
    requires Inv(s) && AllRunUntilLaunch(s) && j in s.threads && j != i && rows'.Keys == s.rows.Keys
    requires forall u :: u in s.rows && HeldTask(ThreadOf(s, i).pc) != Some(u) && s.rows[u].status != PENDING ==> rows'[u] == s.rows[u]
    ensures RunsUntilLaunch(rows', s.threads[j])
  {
    var pc := s.threads[j].pc;
    if pc.Polled? || pc.Claimed? || pc.Stamped? {
      assert Holds(s.threads[j], pc.task) && RunsUntilLaunch(s.rows, s.threads[j]);
      assert i in s.threads ==> !Holds(s.threads[i], pc.task);
    }
  }

  /** The account of one thread's step on a task nobody else holds. */
  lemma ActAccounts(cfg: Config, now: int, rows: Rows, th: Thread, a: Action, t: TaskId)
    requires HolderMatchesRow(rows, th) && RunsUntilLaunch(rows, th) && !a.Crash? && !a.CommitRecovery? && Act(cfg, now, rows, th, a).Some?
    ensures var (rows', th') := Act(cfg, now, rows, th, a).value;
            var succeeded, succeeded' := t in rows && rows[t].status == SUCCESS, t in rows' && rows'[t].status == SUCCESS;
            var condemned, condemned' := succeeded && Holds(th, t) && WillFail(th.pc), succeeded' && Holds(th', t) && WillFail(th'.pc);
            var overwritten := succeeded && t in rows' && rows'[t].status == FAILED;
            var badly := match (a, th.pc)
                         case (HandlerExit(false), Running(u, Live)) => u == t && succeeded
                         case (Terminate, Running(u, Live)) => u == t && succeeded
                         case (HandlerWrite(false), Running(u, Live)) => u == t && succeeded
                         case (HandlerWrite(true), Stopping(u, Live)) => u == t && !succeeded
                         case _ => false;
            Once(badly) + Once(condemned) == Once(overwritten) + Once(condemned')
  {
  }

  lemma OnlyActorIsCondemned(s: State, th: Thread, t: TaskId, k: ThreadId)
    requires th == ThreadOf(s, k) && forall j :: j in s.threads && j != k ==> !Holds(s.threads[j], t)
    ensures Condemned(s, t) <==> Succeeded(s, t) && Holds(th, t) && WillFail(th.pc)
  {
    if Succeeded(s, t) && Holds(th, t) && WillFail(th.pc) {
      assert k in s.threads && Holds(s.threads[k], t) && WillFail(s.threads[k].pc);
    }
  }

  lemma OtherHolderAccounts(cfg: Config, s: State, l: Label, j: ThreadId, t: TaskId)
    requires Inv(s) && ThreadActs(cfg, s, l) && !l.action.CommitRecovery?
    requires j in s.threads && j != l.thread && Holds(s.threads[j], t)
    ensures Condemned(Next(cfg, s, l), t) <==> Condemned(s, t)
    ensures !BadEnd(s, l, t) && !Overwrite(cfg, s, l, t)
  {
    var s' := Next(cfg, s, l);
    var th := ThreadOf(s, l.thread);
    assert l.thread in s.threads ==> !Holds(s.threads[l.thread], t);
    assert HolderMatchesRow(s.rows, s.threads[j]);
    assert HolderMatchesRow(s.rows, th) by {
      assert l.thread in s.threads ==> HolderMatchesRow(s.rows, s.threads[l.thread]);
    }
    ActIsLocal(cfg, s.clock, s.rows, th, l.action);
    assert s'.rows[t] == s.rows[t] && !Holds(s'.threads[l.thread], t);
    assert s'.threads[j] == s.threads[j];
    assert forall k :: k in s'.threads && Holds(s'.threads[k], t) ==> k == j;
    assert forall k :: k in s.threads && Holds(s.threads[k], t) ==> k == j;
  }

  lemma StepAccounts(cfg: Config, s: State, l: Label, t: TaskId)
    requires Inv(s) && AllRunUntilLaunch(s) && !(l.Do? && (l.action.Crash? || l.action.CommitRecovery?))
    ensures Once(BadEnd(s, l, t)) + Once(Condemned(s, t)) == Once(Overwrite(cfg, s, l, t)) + Once(Condemned(Next(cfg, s, l), t))
  {
    var s' := Next(cfg, s, l);
    if ThreadActs(cfg, s, l) {
      var k := l.thread;
      var th := ThreadOf(s, k);
      if j :| j in s.threads && j != k && Holds(s.threads[j], t) {
        OtherHolderAccounts(cfg, s, l, j, t);
      } else {
        assert HolderMatchesRow(s.rows, th) && RunsUntilLaunch(s.rows, th) by {
          assert k in s.threads ==> HolderMatchesRow(s.rows, s.threads[k]);
        }
        ActAccounts(cfg, s.clock, s.rows, th, l.action, t);
        OnlyActorIsCondemned(s, th, t, k);
        OnlyActorIsCondemned(s', s'.threads[k], t, k);
      }
    } else {
      NothingAccounts(cfg, s, l, t);
    }
  }

  lemma NothingAccounts(cfg: Config, s: State, l: Label, t: TaskId)
    requires Inv(s) && !ThreadActs(cfg, s, l)
    ensures !BadEnd(s, l, t) && !Overwrite(cfg, s, l, t)
    ensures Condemned(Next(cfg, s, l), t) <==> Condemned(s, t)
  {
    if l.Do? && l.thread in s.threads {
      assert HolderMatchesRow(s.rows, s.threads[l.thread]);
    }
  }

  /** Over every run without crashes and recoveries: each bad end around a SUCCESS makes one overwrite, and nothing else does. */
  lemma {:induction false} OverwritesAreBadEnds(cfg: Config, s: State, run: seq<Label>, t: TaskId)
    requires Inv(s) && AllRunUntilLaunch(s) && Calm(run)
    ensures BadEnds(cfg, s, run, t) + Once(Condemned(s, t)) == Overwrites(cfg, s, run, t) + Once(Condemned(Exec(cfg, s, run), t))
    decreases |run|
  {
    if run != [] {
      StepAccounts(cfg, s, run[0], t);
      StepKeepsInv(cfg, s, run[0]);
      StepRunsUntilLaunch(cfg, s, run[0]);
      OverwritesAreBadEnds(cfg, Next(cfg, s, run[0]), run[1..], t);
    }
  }

  /** From any table, once the task is let go: a SUCCESS was overwritten by FAILED exactly when a handler ended badly around one. */
  lemma OverwrittenExactlyWhen(cfg: Config, s: State, run: seq<Label>, t: TaskId)
    requires Quiescent(s) && Calm(run) && !Held(Exec(cfg, s, run), t)
    ensures Overwrites(cfg, s, run, t) > 0 <==> BadEnds(cfg, s, run, t) > 0
    ensures Overwrites(cfg, s, run, t) == BadEnds(cfg, s, run, t)
  {
    OverwritesAreBadEnds(cfg, s, run, t);
  }

  // ---------------------------------------------------------------------------------------
  // Runs from an empty table.

  const EMPTY := State(0, map[], map[])

  /** A new task's handler is running. */
  lemma TaskIsStarted(cfg: Config, t: TaskId)
    requires cfg.maxTaskRuntime > 0
    ensures var s := Exec(cfg, EMPTY, [Create(t, AGENT_TASK)] + PollAndLaunch(t, 0));
            && s.threads == map[0 := Thread(Running(t, Live), 0, 0)]
            && t in s.rows && s.rows[t].status == RUNNING && s.rows[t].retryCount == 0
  {
    var created := Next(cfg, EMPTY, Create(t, AGENT_TASK));
    assert ([Create(t, AGENT_TASK)] + PollAndLaunch(t, 0))[1..] == PollAndLaunch(t, 0);
    PollAndLaunchRuns(cfg, created, t, 0);
    PollAndLaunchKeepsCount(cfg, created, t, 0);
  }

  /** The handler returns without a word, and the worker moves on. */
  const SILENT_END: seq<Label> := [Do(0, HandlerExit(true)), Do(0, Notice), Do(0, Inspect)]

  function SilentRun(t: TaskId): seq<Label> { [Create(t, AGENT_TASK)] + PollAndLaunch(t, 0) + SILENT_END }

  lemma SilentEnd(cfg: Config, s: State, t: TaskId)
    requires s.threads == map[0 := Thread(Running(t, Live), 0, 0)] && t in s.rows && s.rows[t].status == RUNNING
    ensures var end := Exec(cfg, s, SILENT_END);
            t in end.rows && end.rows[t].status == RUNNING && end.threads.Keys == {0} && end.threads[0].pc == Idle
  {
    var s1 := Next(cfg, s, SILENT_END[0]);
    var s2 := Next(cfg, s1, SILENT_END[1]);
    var s3 := Next(cfg, s2, SILENT_END[2]);
    assert Exec(cfg, s, SILENT_END) == Exec(cfg, s1, SILENT_END[1..]) == Exec(cfg, s2, SILENT_END[2..]) == Exec(cfg, s3, SILENT_END[3..]) == s3;
    assert s1.threads.Keys == {0} && s1.threads[0].pc == Running(t, Exited(true)) && s1.rows == s.rows;
    assert s2.threads.Keys == {0} && s2.threads[0].pc == Finished(t) && s2.rows == s.rows;
  }

  lemma SilentRunStrands(cfg: Config, t: TaskId)
    requires cfg.maxTaskRuntime > 0
    ensures Stranded(Exec(cfg, EMPTY, SilentRun(t)), t)
  {
    var start := [Create(t, AGENT_TASK)] + PollAndLaunch(t, 0);
    TaskIsStarted(cfg, t);
    ExecAppend(cfg, EMPTY, start, SILENT_END);
    SilentEnd(cfg, Exec(cfg, EMPTY, start), t);
  }

  /** The handler writes SUCCESS, then fails, and the worker records FAILED; then it puts the task back. */
  const FAIL_AFTER_SUCCESS: seq<Label> :=
    [Do(0, HandlerWrite(true)), Do(0, HandlerExit(false)), Do(0, Notice), Do(0, MarkFailed)]

  const RETRY: seq<Label> := [Do(0, Inspect), Do(0, Bump), Do(0, Requeue)]

  lemma FailingAfterSuccessIsRetried(cfg: Config, t: TaskId)
    requires cfg.maxTaskRuntime > 0 && cfg.maxRetry > 0
    ensures var start := Exec(cfg, EMPTY, [Create(t, AGENT_TASK)] + PollAndLaunch(t, 0));
            var failed := Exec(cfg, start, FAIL_AFTER_SUCCESS);
            && Succeeded(Next(cfg, start, FAIL_AFTER_SUCCESS[0]), t)
            && t in failed.rows && failed.rows[t].status == FAILED
            && IsPending(Exec(cfg, failed, RETRY).rows, t)
  {
    TaskIsStarted(cfg, t);
    var s := Exec(cfg, EMPTY, [Create(t, AGENT_TASK)] + PollAndLaunch(t, 0));
    FailsAfterSuccess(cfg, s, t);
    PutsBack(cfg, Exec(cfg, s, FAIL_AFTER_SUCCESS), t);
  }

  lemma FailsAfterSuccess(cfg: Config, s: State, t: TaskId)
    requires 0 in s.threads && s.threads[0].pc == Running(t, Live) && t in s.rows
    ensures var s' := Exec(cfg, s, FAIL_AFTER_SUCCESS);
            && Succeeded(Next(cfg, s, FAIL_AFTER_SUCCESS[0]), t)
            && 0 in s'.threads && s'.threads[0].pc == Finished(t)
            && t in s'.rows && s'.rows[t].status == FAILED && s'.rows[t].retryCount == s.rows[t].retryCount
  {
    var run := FAIL_AFTER_SUCCESS;
    var s1 := Next(cfg, s, run[0]);
    var s2 := Next(cfg, s1, run[1]);
    var s3 := Next(cfg, s2, run[2]);
    var s4 := Next(cfg, s3, run[3]);
    assert Exec(cfg, s, run) == Exec(cfg, s1, run[1..]) == Exec(cfg, s2, run[2..]);
    assert Exec(cfg, s2, run[2..]) == Exec(cfg, s3, run[3..]) == Exec(cfg, s4, run[4..]) == s4;
  }

  lemma PutsBack(cfg: Config, s: State, t: TaskId)
    requires 0 in s.threads && s.threads[0].pc == Finished(t)
    requires t in s.rows && s.rows[t].status == FAILED && s.rows[t].retryCount < cfg.maxRetry
    ensures IsPending(Exec(cfg, s, RETRY).rows, t)
  {
    var run := RETRY;
    var s1 := Next(cfg, s, run[0]);
    var s2 := Next(cfg, s1, run[1]);
    var s3 := Next(cfg, s2, run[2]);
    assert Exec(cfg, s, run) == Exec(cfg, s1, run[1..]) == Exec(cfg, s2, run[2..]) == Exec(cfg, s3, run[3..]) == s3;
  }
}
