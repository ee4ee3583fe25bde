/**
 The task table: rows, the column updates each repository method commits, and the
 repository itself.

 Every commit is an update of single rows, so the updates are functions on rows; the
 lease protocol (module LeaseProtocol) interleaves exactly these functions, and the
 methods of TaskRepository are proved to perform them.

 Times are integer milliseconds.
 */
module TaskTable {
  import opened Wrappers

  type TaskId = string

  datatype TaskStatus = PENDING | RUNNING | SUCCESS | FAILED

  datatype TaskType = PROCESS_DOCUMENT | REFRESH_KNOWLEDGE | AGENT_TASK

  datatype Row = Row(
    taskType: TaskType,
    status: TaskStatus,
    createdAt: int,
    startedAt: Option<int>,
    completedAt: Option<int>,
    workerId: Option<string>,
    lockedAt: Option<int>,
    retryCount: nat)

  type Rows = map<TaskId, Row>

  const STALE_TASK_TIMEOUT_MS := 30 * 60 * 1000

  function NewRow(taskType: TaskType, now: int): Row {
    Row(taskType, PENDING, now, None, None, None, None, 0)
  }

  function ClaimRow(row: Row, now: int): Row {
    row.(status := RUNNING, startedAt := Some(now))
  }

  /** SUCCESS and FAILED also stamp the completion time; PENDING keeps every other column. */
  function SetStatus(row: Row, status: TaskStatus, now: int): Row {
    if status == SUCCESS || status == FAILED
    then row.(status := status, completedAt := Some(now))
    else row.(status := status)
  }

  predicate IsStale(row: Row, now: int, staleAfter: int) {
    row.status == RUNNING && row.startedAt.Some? && row.startedAt.value < now - staleAfter
  }

  function StaleIds(rows: Rows, now: int, staleAfter: int): (ids: set<TaskId>)
    ensures forall t :: t in ids <==> t in rows && IsStale(rows[t], now, staleAfter)
  {
    set t | t in rows && IsStale(rows[t], now, staleAfter)
  }

  function RecoverRow(row: Row): Row {
    row.(status := PENDING, startedAt := None)
  }

  /** The commit of one recovery: each row read as stale is put back, whatever it holds by now. */
  function RecoverRows(rows: Rows, ids: set<TaskId>): (rows': Rows)
    ensures rows'.Keys == rows.Keys
  {
    map t | t in rows :: if t in ids then RecoverRow(rows[t]) else rows[t]
  }

  lemma RecoverOneMore(rows: Rows, done: set<TaskId>, t: TaskId)
    requires t in rows && t !in done
    ensures RecoverRows(rows, done)[t] == rows[t]
    ensures RecoverRows(rows, done)[t := RecoverRow(rows[t])] == RecoverRows(rows, done + {t})
  {
  }

  datatype RepositoryError = TenantRequired | StaleAfterNotPositive | DuplicateId

  /** `t` is a PENDING row and no PENDING row was created earlier. */
  ghost predicate IsOldestPending(rows: Rows, t: TaskId) {
    && t in rows && rows[t].status == PENDING
    && forall u :: u in rows && rows[u].status == PENDING ==> rows[t].createdAt <= rows[u].createdAt
  }

  lemma MoveOver(todo: set<TaskId>, done: set<TaskId>, t: TaskId)
    requires todo !! done && t in todo
    ensures todo - {t} + (done + {t}) == todo + done && todo - {t} !! done + {t} && |done + {t}| == |done| + 1
  {
  }

  class TaskRepository {
    var rows: Rows

    constructor ()
      ensures rows == map[]
    {
      rows := map[];
    }

    method CreateTask(id: TaskId, taskType: TaskType, tenantId: Option<int>, now: int)
      returns (r: Result<TaskId, RepositoryError>)
      modifies this
      ensures tenantId == None ==> r == Failure(TenantRequired)
      ensures tenantId != None && id in old(rows) ==> r == Failure(DuplicateId)
      ensures r.Failure? ==> rows == old(rows)
      ensures r.Success? ==> r.value == id && id !in old(rows) && rows == old(rows)[id := NewRow(taskType, now)]
    {
      if tenantId == None {
        return Failure(TenantRequired);
      }
      if id in rows {
        return Failure(DuplicateId);
      }
      rows := rows[id := Row(taskType, PENDING, now, None, None, None, None, 0)];
      return Success(id);
    }

    /** The earliest created row among the PENDING ones (all of them, or the one asked for). */
    method FindPending(taskId: Option<TaskId>) returns (found: Option<TaskId>)
      ensures taskId.Some? ==>
                found == if taskId.value in rows && rows[taskId.value].status == PENDING then taskId else None
      ensures taskId.None? && found.Some? ==> IsOldestPending(rows, found.value)
      ensures taskId.None? && found.None? ==> forall u :: u in rows ==> rows[u].status != PENDING
    {
      if taskId.Some? {
        return if taskId.value in rows && rows[taskId.value].status == PENDING then taskId else None;
      }
      found := None;
      var unseen := rows.Keys;
      while unseen != {}
        invariant unseen <= rows.Keys
        invariant found.Some? ==>
                    && found.value in rows && rows[found.value].status == PENDING
                    && forall u :: u in rows.Keys - unseen && rows[u].status == PENDING ==>
                                     rows[found.value].createdAt <= rows[u].createdAt
        invariant found.None? ==> forall u :: u in rows.Keys - unseen ==> rows[u].status != PENDING
        decreases |unseen|
      {
        var t :| t in unseen;
        if rows[t].status == PENDING && (found.None? || rows[t].createdAt < rows[found.value].createdAt) {
          found := Some(t);
        }
        unseen := unseen - {t};
      }
    }

    method ClaimTask(taskId: Option<TaskId>, now: int) returns (claimed: Option<TaskId>)
      modifies this
      ensures taskId.Some? ==>
                claimed == if taskId.value in old(rows) && old(rows)[taskId.value].status == PENDING then taskId else None
      ensures taskId.None? && claimed.Some? ==> IsOldestPending(old(rows), claimed.value)
      ensures taskId.None? && claimed.None? ==> forall u :: u in old(rows) ==> old(rows)[u].status != PENDING
      ensures claimed.None? ==> rows == old(rows)
      ensures claimed.Some? ==>
                && claimed.value in old(rows)
                && rows == old(rows)[claimed.value := ClaimRow(old(rows)[claimed.value], now)]
    {
      claimed := FindPending(taskId);
      if claimed.Some? {
        rows := rows[claimed.value := rows[claimed.value].(status := RUNNING, startedAt := Some(now))];
      }
    }

    method UpdateStatus(id: TaskId, status: TaskStatus, now: int) returns (found: bool)
      modifies this
      ensures found == (id in old(rows))
      ensures rows == if found then old(rows)[id := SetStatus(old(rows)[id], status, now)] else old(rows)
    {
      found := id in rows;
      if found {
        var row := rows[id].(status := status);
        if status == SUCCESS || status == FAILED {
          row := row.(completedAt := Some(now));
        }
        rows := rows[id := row];
      }
    }

    /** Without an explicit age the default of thirty minutes applies. */
    method FindStale(staleAfter: Option<int>, now: int) returns (r: Result<set<TaskId>, RepositoryError>)
      ensures r.Failure? <==> staleAfter.Some? && staleAfter.value <= 0
      ensures r.Success? ==>
                r.value == StaleIds(rows, now, if staleAfter.Some? then staleAfter.value else STALE_TASK_TIMEOUT_MS)
    {
      var age := if staleAfter.Some? then staleAfter.value else STALE_TASK_TIMEOUT_MS;
      if age <= 0 {
        return Failure(StaleAfterNotPositive);
      }
      return Success(set t | t in rows && rows[t].status == RUNNING && rows[t].startedAt.Some? && rows[t].startedAt.value < now - age);
    }

    /** The rows read as stale are put back, whatever they hold by now, and committed together. */
    method PutBack(stale: set<TaskId>) returns (count: nat)
      requires stale <= rows.Keys
      modifies this
      ensures count == |stale| && rows == RecoverRows(old(rows), stale)
    {
      ghost var before := rows;
      var todo := stale;
      ghost var done := {};
      count := 0;
      while todo != {}
        invariant todo + done == stale && todo !! done && count == |done|
        invariant rows == RecoverRows(before, done)
        decreases |todo|
      {
        var t :| t in todo;
        RecoverOneMore(before, done, t);
        MoveOver(todo, done, t);
        rows := rows[t := rows[t].(status := PENDING, startedAt := None)];
        count := count + 1;
        todo, done := todo - {t}, done + {t};
      }
      assert done == stale;
    }

    /** Reading and putting back, when nothing comes in between. */
    method RecoverStaleTasks(staleAfter: Option<int>, now: int) returns (r: Result<nat, RepositoryError>)
      modifies this
      ensures r.Failure? <==> staleAfter.Some? && staleAfter.value <= 0
      ensures r.Failure? ==> rows == old(rows)
      ensures r.Success? ==>
                var age := if staleAfter.Some? then staleAfter.value else STALE_TASK_TIMEOUT_MS;
                && r.value == |StaleIds(old(rows), now, age)|
                && rows == RecoverRows(old(rows), StaleIds(old(rows), now, age))
    {
      var stale := FindStale(staleAfter, now);
      if stale.Failure? {
        return Failure(stale.error);
      }
      var count := PutBack(stale.value);
      return Success(count);
    }
  }
}
