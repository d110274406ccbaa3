/** Task rows and the guarded statements that change them. */
module TaskStore {
  import opened Common

  type TaskId(==, !new)
  type OwnerId(==, !new)
  type RequestId(==, !new)
  type CommandId(==, !new)
  type Payload(==, !new)

  datatype Status = Queued | Dispatched | Running | Succeeded | Failed | TimedOut | Canceled

  predicate Terminal(s: Status) { s.Succeeded? || s.Failed? || s.TimedOut? || s.Canceled? }

  /** request None is the empty request id; expiresAt 0 means "not set". */
  datatype Task = Task(
    owner: OwnerId,
    request: Option<RequestId>,
    status: Status,
    command: Option<CommandId>,
    result: Option<Payload>,
    errorCode: string,
    completedAt: nat,
    expiresAt: nat)

  type Rows = map<TaskId, Task>

  predicate Live(rows: Rows, id: TaskId) { id in rows && !Terminal(rows[id].status) }

  /** Everything a terminal transition fixes. */
  datatype Verdict = Verdict(status: Status, result: Option<Payload>, errorCode: string, completedAt: nat,
                             retention: nat)

  /** Statement of the store. Startup is run once per process before anything else. */
  datatype Statement =
    | Insert(id: TaskId, task: Task)
    | MarkDispatched(id: TaskId)
    | MarkRunning(id: TaskId, command: CommandId)
    | MarkTerminal(id: TaskId, verdict: Verdict)
    | FailAllOnStartup(now: nat, retention: nat)
    | DeleteExpired(now: nat)

  predicate WellFormed(st: Statement) {
    && (st.MarkTerminal? ==> Terminal(st.verdict.status))
    && (st.Insert? ==> st.task.status == Queued)
  }

  function Settled(task: Task, v: Verdict): Task {
    task.(status := v.status, result := v.result, errorCode := v.errorCode,
          completedAt := v.completedAt, expiresAt := v.completedAt + v.retention)
  }

  predicate Prunable(task: Task, now: nat) { Terminal(task.status) && 0 < task.expiresAt <= now }

  /** The rows after a statement, and how many it changed. */
  function Execute(rows: Rows, st: Statement): (Rows, nat)
    requires WellFormed(st)
  {
    match st
    case Insert(id, task) => if id in rows then (rows, 0) else (rows[id := task], 1)
    case MarkDispatched(id) =>
      if Live(rows, id) then (rows[id := rows[id].(status := Dispatched)], 1) else (rows, 0)
    case MarkRunning(id, command) =>
      if Live(rows, id) then (rows[id := rows[id].(status := Running, command := Some(command))], 1) else (rows, 0)
    case MarkTerminal(id, v) =>
      if Live(rows, id) then (rows[id := Settled(rows[id], v)], 1) else (rows, 0)
    case FailAllOnStartup(now, retention) =>
      (map id | id in rows ::
         if Terminal(rows[id].status) then rows[id]
         else rows[id].(status := Failed, errorCode := "console_restarted", completedAt := now,
             expiresAt := now + retention),
       |set id | id in rows && !Terminal(rows[id].status)|)
    case DeleteExpired(now) =>
      (map id | id in rows && !Prunable(rows[id], now) :: rows[id], |set id | id in rows && Prunable(rows[id], now)|)
  }

  function Effect(rows: Rows, st: Statement): (Rows, Option<nat>)
    requires WellFormed(st)
  {
    var (next, count) := Execute(rows, st);
    (next, Some(count))
  }

  /** The task side of the console: the table, and the runtime records whose channel a waiter blocks on. */
  class Tasks {
    var rows: Rows
    /** Registered runtime records, and those that were taken out and had their channel closed. */
    var records: set<TaskId>
    var closed: set<TaskId>

    constructor ()
      ensures rows == map[] && records == {} && closed == {}
    {
      rows, records, closed := map[], {}, {};
    }

    /** Every statement below fails as a whole when the store is not up. */
    method MarkDispatched(id: TaskId, up: bool) returns (changed: Option<nat>)
      modifies `rows
      ensures up ==> (rows, changed) == Effect(old(rows), Statement.MarkDispatched(id))
      ensures !up ==> rows == old(rows) && changed == None
    {
      if !up {
        return None;
      }
      if id !in rows || Terminal(rows[id].status) {
        return Some(0);
      }
      rows := rows[id := rows[id].(status := Dispatched)];
      return Some(1);
    }

    method MarkRunning(id: TaskId, command: CommandId, up: bool) returns (changed: Option<nat>)
      modifies `rows
      ensures up ==> (rows, changed) == Effect(old(rows), Statement.MarkRunning(id, command))
      ensures !up ==> rows == old(rows) && changed == None
    {
      if !up {
        return None;
      }
      if id !in rows || Terminal(rows[id].status) {
        return Some(0);
      }
      rows := rows[id := rows[id].(status := Running, command := Some(command))];
      return Some(1);
    }

    method MarkTerminal(id: TaskId, v: Verdict, up: bool) returns (changed: Option<nat>)
      requires Terminal(v.status)
      modifies `rows
      ensures up ==> (rows, changed) == Effect(old(rows), Statement.MarkTerminal(id, v))
      ensures !up ==> rows == old(rows) && changed == None
    {
      if !up {
        return None;
      }
      if id !in rows || Terminal(rows[id].status) {
        return Some(0);
      }
      rows := rows[id := Settled(rows[id], v)];
      return Some(1);
    }

    /** Takes the record out and closes its channel; a second call finds nothing to close. */
    method CompleteRuntime(id: TaskId)
      modifies `records, `closed
      ensures records == old(records) - {id}
      ensures closed == if id in old(records) then old(closed) + {id} else old(closed)
    {
      if id in records {
        records := records - {id};
        closed := closed + {id};
      }
    }

    /** Whatever becomes of the update, the waiters are released. */
    method Finish(id: TaskId, v: Verdict, up: bool) returns (changed: Option<nat>)
      requires Terminal(v.status)
      modifies this
      ensures up ==> (rows, changed) == Effect(old(rows), Statement.MarkTerminal(id, v))
      ensures !up ==> rows == old(rows) && changed == None
      ensures id !in records && records == old(records) - {id}
      ensures closed == if id in old(records) then old(closed) + {id} else old(closed)
      ensures Live(rows, id) <==> !up && Live(old(rows), id)
    {
      changed := MarkTerminal(id, v, up);
      CompleteRuntime(id);
    }

    /** The executor's last resort after a failed update: it gives up on the row only if the store fails again. */
    method FinishOrFail(id: TaskId, v: Verdict, fallback: Verdict, up: bool, upAgain: bool)
      requires Terminal(v.status) && Terminal(fallback.status)
      modifies this
      ensures id !in records
      ensures Live(rows, id) <==> !up && !upAgain && Live(old(rows), id)
      ensures rows ==
        if up then Execute(old(rows), Statement.MarkTerminal(id, v)).0
        else if upAgain then Execute(old(rows), Statement.MarkTerminal(id, fallback)).0
        else old(rows)
    {
      var changed := Finish(id, v, up);
      if changed.None? {
        changed := Finish(id, fallback, upAgain);
      }
    }
  }

  // ---------------------------------------------------------------- terminal is absorbing

  /** The statements of a run; a task id is inserted at most once, ids being random UUIDs. */
  predicate History(sts: seq<Statement>) {
    && (forall i | 0 <= i < |sts| :: WellFormed(sts[i]))
    && (forall i, j | 0 <= i < j < |sts| && sts[i].Insert? && sts[j].Insert? :: sts[i].id != sts[j].id)
  }

  function After(rows: Rows, sts: seq<Statement>): Rows
    requires forall i | 0 <= i < |sts| :: WellFormed(sts[i])
  {
    if sts == [] then rows else Execute(After(rows, sts[..|sts| - 1]), sts[|sts| - 1]).0
  }

  /** A statement leaves a terminal row exactly as it is, unless it prunes it. */
  lemma TerminalUntouched(rows: Rows, st: Statement, id: TaskId)
    requires WellFormed(st) && id in rows && Terminal(rows[id].status)
    ensures var next := Execute(rows, st).0;
      if st.DeleteExpired? && Prunable(rows[id], st.now) then id !in next else id in next && next[id] == rows[id]
  {
  }

  /** A live row is never deleted, and only its status, command and verdict can change. */
  lemma LiveNeverPruned(rows: Rows, st: Statement, id: TaskId)
    requires WellFormed(st) && Live(rows, id)
    ensures var next := Execute(rows, st).0;
      id in next && next[id].owner == rows[id].owner && next[id].request == rows[id].request
  {
  }

  lemma GoneStaysGone(rows: Rows, st: Statement, id: TaskId)
    requires WellFormed(st) && id !in rows && !(st.Insert? && st.id == id)
    ensures id !in Execute(rows, st).0
  {
  }

  lemma NotReinserted(rows: Rows, sts: seq<Statement>, id: TaskId)
    requires forall i | 0 <= i < |sts| :: WellFormed(sts[i])
    requires id in After(rows, sts) && id !in rows
    ensures exists i | 0 <= i < |sts| :: sts[i].Insert? && sts[i].id == id
    decreases |sts|
  {
    var before, last := sts[..|sts| - 1], sts[|sts| - 1];
    if id in After(rows, before) {
      NotReinserted(rows, before, id);
      var i :| 0 <= i < |before| && before[i].Insert? && before[i].id == id;
      assert sts[i] == before[i];
    } else {
      assert last.Insert? && last.id == id;
    }
  }

  /** From the first terminal status on, a row never changes again until it is pruned, and once gone it
      stays gone: for every history from an empty table and every pair of points in it. */
  lemma {:induction false} TerminalIsAbsorbing(sts: seq<Statement>, i: nat, j: nat, id: TaskId)
    requires History(sts) && i <= j <= |sts|
    requires id in After(map[], sts[..i]) && Terminal(After(map[], sts[..i])[id].status)
    ensures id in After(map[], sts[..j]) ==> After(map[], sts[..j])[id] == After(map[], sts[..i])[id]
    decreases j
  {
    if j > i {
      TerminalIsAbsorbing(sts, i, j - 1, id);
      assert sts[..j][..j - 1] == sts[..j - 1];
      var rows := After(map[], sts[..j - 1]);
      InsertedBefore(sts, i, j - 1, id);
      if id in rows {
        TerminalUntouched(rows, sts[j - 1], id);
      } else {
        GoneStaysGone(rows, sts[j - 1], id);
      }
    }
  }

  lemma InsertedBefore(sts: seq<Statement>, i: nat, j: nat, id: TaskId)
    requires History(sts) && i <= j < |sts|
    requires id in After(map[], sts[..i])
    ensures !(sts[j].Insert? && sts[j].id == id)
  {
    NotReinserted(map[], sts[..i], id);
    var k :| 0 <= k < |sts[..i]| && sts[..i][k].Insert? && sts[..i][k].id == id;
    assert sts[k] == sts[..i][k];
  }

  /** A row that was pruned is never seen again. */
  lemma {:induction false} DeletedForGood(sts: seq<Statement>, i: nat, k: nat, j: nat, id: TaskId)
    requires History(sts) && i <= k <= j <= |sts|
    requires id in After(map[], sts[..i]) && id !in After(map[], sts[..k])
    ensures id !in After(map[], sts[..j])
    decreases j
  {
    if j > k {
      DeletedForGood(sts, i, k, j - 1, id);
      assert sts[..j][..j - 1] == sts[..j - 1];
      InsertedBefore(sts, i, j - 1, id);
      GoneStaysGone(After(map[], sts[..j - 1]), sts[j - 1], id);
    }
  }

  predicate Wins(sts: seq<Statement>, i: nat, id: TaskId)
    requires History(sts) && i < |sts|
  {
    sts[i].MarkTerminal? && sts[i].id == id && Execute(After(map[], sts[..i]), sts[i]).1 == 1
  }

  /** Of all the calls that try to finish a task - its executor, its cancellers, their fallbacks - at most one
      is told that it changed the row. */
  lemma OneWinner(sts: seq<Statement>, i: nat, j: nat, id: TaskId)
    requires History(sts) && i < |sts| && j < |sts|
    requires Wins(sts, i, id) && Wins(sts, j, id)
    ensures i == j
  {
    if i < j {
      WinnerSettles(sts, i, id);
    }
    if j < i {
      WinnerSettles(sts, j, id);
    }
  }

  /** What the winner wrote is what the row says at every later point, until it is pruned. */
  lemma WinnerSettles(sts: seq<Statement>, i: nat, id: TaskId)
    requires History(sts) && i < |sts| && Wins(sts, i, id)
    ensures id in After(map[], sts[..i + 1])
    ensures forall j | i < j <= |sts| && id in After(map[], sts[..j]) ::
      var row, v := After(map[], sts[..j])[id], sts[i].verdict;
      && row.status == v.status && row.result == v.result && row.errorCode == v.errorCode
      && row.completedAt == v.completedAt && row.expiresAt == v.completedAt + v.retention
    ensures Terminal(After(map[], sts[..i + 1])[id].status)
  {
    assert sts[..i + 1][..i] == sts[..i];
    forall j | i < j <= |sts| && id in After(map[], sts[..j])
      ensures After(map[], sts[..j])[id] == After(map[], sts[..i + 1])[id]
    {
      TerminalIsAbsorbing(sts, i + 1, j, id);
    }
  }
}
