/**
 Conservation over every interleaving: a task is claimed at most once per time it was put to
 PENDING, its retry count never passes the configured maximum, and while tasks have single holders the
 retry count pays for every requeue.
 */
module LeaseConservation {
  import opened TaskTable
  import opened LeaseProtocol
  import opened LeaseExclusion

  function PendingUnit(s: State, t: TaskId): nat { Once(IsPending(s.rows, t)) }

  lemma StepConserves(cfg: Config, s: State, l: Label, t: TaskId)
    ensures Once(Happens(cfg, s, l, Claiming, t)) + PendingUnit(Next(cfg, s, l), t)
         <= PendingUnit(s, t) + Once(Happens(cfg, s, l, Creation, t))
            + Once(Happens(cfg, s, l, Requeuing, t)) + Once(Happens(cfg, s, l, Recovery, t))
  {
  }

  /** Every claim is paid for by a creation, a requeue or a recovery, whatever the broker and the other threads do. */
  lemma {:induction false} ClaimsAreConserved(cfg: Config, s: State, run: seq<Label>, t: TaskId)
    ensures Count(cfg, s, run, Claiming, t) + PendingUnit(Exec(cfg, s, run), t)
         <= PendingUnit(s, t) + Count(cfg, s, run, Creation, t)
            + Count(cfg, s, run, Requeuing, t) + Count(cfg, s, run, Recovery, t)
    decreases |run|
  {
    if run != [] {
      StepConserves(cfg, s, run[0], t);
      ClaimsAreConserved(cfg, Next(cfg, s, run[0]), run[1..], t);
    }
  }

  lemma RowsStay(cfg: Config, s: State, l: Label, t: TaskId)
    requires t in s.rows
    ensures t in Next(cfg, s, l).rows
  {
  }

  /** A task is created at most once, and never when its row already exists. */
  lemma {:induction false} CreatedOnce(cfg: Config, s: State, run: seq<Label>, t: TaskId)
    ensures Count(cfg, s, run, Creation, t) + Once(t in s.rows) <= 1
    decreases |run|
  {
    if run != [] {
      if t in s.rows {
        RowsStay(cfg, s, run[0], t);
      }
      CreatedOnce(cfg, Next(cfg, s, run[0]), run[1..], t);
    }
  }

  /** The form the design promises: claims plus one if PENDING is at most one plus requeues plus recoveries. */
  lemma ClaimsPerTask(cfg: Config, s: State, run: seq<Label>, t: TaskId)
    ensures Count(cfg, s, run, Claiming, t) + PendingUnit(Exec(cfg, s, run), t)
         <= 1 + Count(cfg, s, run, Requeuing, t) + Count(cfg, s, run, Recovery, t)
  {
    ClaimsAreConserved(cfg, s, run, t);
    CreatedOnce(cfg, s, run, t);
  }

  // ---------------------------------------------------------------------------------------
  // The retry count, read in one transaction and written in another.

  predicate RetriesBounded(cfg: Config, s: State) {
    && (forall t :: t in s.rows ==> s.rows[t].retryCount <= Max(0, cfg.maxRetry))
    && (forall i :: i in s.threads && s.threads[i].pc.Bumping? ==> s.threads[i].pc.seen < cfg.maxRetry)
  }

  lemma StepKeepsRetriesBounded(cfg: Config, s: State, l: Label)
    requires RetriesBounded(cfg, s)
    ensures RetriesBounded(cfg, Next(cfg, s, l))
  {
    var s' := Next(cfg, s, l);
    forall t | t in s'.rows
      ensures s'.rows[t].retryCount <= Max(0, cfg.maxRetry)
    {
      if l.Do? && l.action.Bump? && ThreadOf(s, l.thread).pc.Bumping? {
        assert l.thread in s.threads;
      }
    }
  }

  /** No interleaving of racing read-modify-writes pushes a retry count past the maximum. */
  lemma {:induction false} RetryCountNeverPassesMaximum(cfg: Config, s: State, run: seq<Label>)
    requires RetriesBounded(cfg, s)
    ensures RetriesBounded(cfg, Exec(cfg, s, run))
    decreases |run|
  {
    if run != [] {
      StepKeepsRetriesBounded(cfg, s, run[0]);
      RetryCountNeverPassesMaximum(cfg, Next(cfg, s, run[0]), run[1..]);
    }
  }

  function RetriesIn(rows: Rows, t: TaskId): nat { if t in rows then rows[t].retryCount else 0 }

  function RetriesOf(s: State, t: TaskId): nat { RetriesIn(s.rows, t) }

  /** A retry was counted whose requeue is still to come. */
  predicate Owed(s: State, t: TaskId) {
    exists i :: i in s.threads && s.threads[i].pc == Requeueing(t)
  }

  /** A thread owes a requeue only after counting the retry, and pays it with the requeue. */
  lemma ActPaysForRequeue(cfg: Config, now: int, rows: Rows, th: Thread, a: Action, t: TaskId)
    requires HolderMatchesRow(rows, th) && Act(cfg, now, rows, th, a).Some?
    ensures var (rows', th') := Act(cfg, now, rows, th, a).value;
            && RetriesIn(rows', t) >= RetriesIn(rows, t)
            && (th'.pc == Requeueing(t) && th.pc != Requeueing(t) ==> RetriesIn(rows', t) > RetriesIn(rows, t))
            && (a.Requeue? && th.pc == Requeueing(t) ==> th'.pc != Requeueing(t))
  {
  }

  /** Only this thread moved, so a requeue that is owed was owed before, or is owed by it. */
  lemma OwedByOthers(s: State, s': State, i: ThreadId, t: TaskId)
    requires forall j :: j in s'.threads && j != i ==> j in s.threads && s'.threads[j] == s.threads[j]
    ensures Owed(s', t) ==> Owed(s, t) || (i in s'.threads && s'.threads[i].pc == Requeueing(t))
  {
    if Owed(s', t) {
      var j :| j in s'.threads && s'.threads[j].pc == Requeueing(t);
      assert j != i ==> s.threads[j].pc == Requeueing(t);
    }
  }

  /** The one thread that owed the requeue no longer does. */
  lemma NobodyOwes(s: State, s': State, i: ThreadId, t: TaskId)
    requires Inv(s) && i in s.threads && s.threads[i].pc == Requeueing(t)
    requires forall j :: j in s'.threads && j != i ==> j in s.threads && s'.threads[j] == s.threads[j]
    requires i in s'.threads ==> s'.threads[i].pc != Requeueing(t)
    ensures !Owed(s', t)
  {
    assert Holds(s.threads[i], t);
    forall j | j in s'.threads
      ensures s'.threads[j].pc != Requeueing(t)
    {
      assert j != i && Holds(s.threads[j], t) ==> j == i;
    }
  }

  lemma ThreadPaysForRequeue(cfg: Config, s: State, i: ThreadId, a: Action, t: TaskId)
    requires Inv(s) && Act(cfg, s.clock, s.rows, ThreadOf(s, i), a).Some?
    ensures var l := Do(i, a);
            Once(Happens(cfg, s, l, Requeuing, t)) + Once(Owed(Next(cfg, s, l), t)) + RetriesOf(s, t)
            <= RetriesOf(Next(cfg, s, l), t) + Once(Owed(s, t))
  {
    var s' := Next(cfg, s, Do(i, a));
    var th := ThreadOf(s, i);
    assert HolderMatchesRow(s.rows, th) by {
      assert i in s.threads ==> HolderMatchesRow(s.rows, s.threads[i]);
    }
    ActPaysForRequeue(cfg, s.clock, s.rows, th, a, t);
    if th.pc == Requeueing(t) {
      assert s.threads[i].pc == Requeueing(t);
      if a.Requeue? {
        NobodyOwes(s, s', i, t);
      }
    } else {
      OwedByOthers(s, s', i, t);
    }
  }

  /** With a single holder per task, each requeue consumes one increment of the retry count. */
  lemma StepPaysForRequeue(cfg: Config, s: State, l: Label, t: TaskId)
    requires Inv(s)
    ensures Once(Happens(cfg, s, l, Requeuing, t)) + Once(Owed(Next(cfg, s, l), t)) + RetriesOf(s, t)
         <= RetriesOf(Next(cfg, s, l), t) + Once(Owed(s, t))
  {
    if l.Do? && Act(cfg, s.clock, s.rows, ThreadOf(s, l.thread), l.action).Some? {
      ThreadPaysForRequeue(cfg, s, l.thread, l.action, t);
    }
  }

  lemma {:induction false} RequeuesArePaid(cfg: Config, s: State, run: seq<Label>, t: TaskId)
    requires InvAlong(cfg, s, run)
    ensures Count(cfg, s, run, Requeuing, t) + Once(Owed(Exec(cfg, s, run), t)) + RetriesOf(s, t)
         <= RetriesOf(Exec(cfg, s, run), t) + Once(Owed(s, t))
    decreases |run|
  {
    if run != [] {
      StepPaysForRequeue(cfg, s, run[0], t);
      RequeuesArePaid(cfg, Next(cfg, s, run[0]), run[1..], t);
    }
  }

  /**
   With a single holder throughout, a task is executed at most once, plus once for every retry it
   had left, plus once for every recovery.
   */
  lemma ExecutionsAreBounded(cfg: Config, s: State, run: seq<Label>, t: TaskId)
    requires InvAlong(cfg, s, run) && Quiescent(s) && RetriesBounded(cfg, s)
    ensures Count(cfg, s, run, Claiming, t)
         <= 1 + (Max(0, cfg.maxRetry) - RetriesOf(s, t)) + Count(cfg, s, run, Recovery, t)
  {
    ClaimsPerTask(cfg, s, run, t);
    RequeuesArePaid(cfg, s, run, t);
    RetryCountNeverPassesMaximum(cfg, s, run);
  }

  /** So it is in every punctual run. */
  lemma PunctualExecutionsAreBounded(cfg: Config, s: State, run: seq<Label>, t: TaskId)
    requires Quiescent(s) && Punctual(cfg, s, run) && RetriesBounded(cfg, s)
    ensures Count(cfg, s, run, Claiming, t)
         <= 1 + (Max(0, cfg.maxRetry) - RetriesOf(s, t)) + Count(cfg, s, run, Recovery, t)
  {
    PunctualInvAlong(cfg, s, run);
    ExecutionsAreBounded(cfg, s, run, t);
  }
}
