/** Interleaved submitters, executors, cancellers and restarts around the table of tasks. */
module TaskSubmission {
  import opened Common
  import opened TaskStore

  type SubmitterId(==, !new)
  type CancelId(==, !new)

  datatype Key = Key(owner: OwnerId, request: RequestId)

  /** Where a SubmitTask call stands; from Inserted on it carries the id it created. */
  datatype Pc =
    | Arrived
    | Reserved
    | Checked
    | Inserted(id: TaskId)
    | Published(id: TaskId)
    | Spawning(id: TaskId)
    | Leaving
    | Over

  /** immediate: the result is known at submission, so no goroutine is started. */
  datatype Submitter = Submitter(owner: OwnerId, request: Option<RequestId>, immediate: bool, pc: Pc)

  /** Where the goroutine executing a task stands; Marked(again) is between the update and the release of the
      waiters, and goes on to the fallback when the update failed. */
  datatype Exec = Begin | Working | Fallback | Marked(again: bool) | Ended

  datatype Cancel = Cancel(id: TaskId, marked: bool)

  type Reservations = map<Key, SubmitterId>
  type Submitters = map<SubmitterId, Submitter>

  /** reservations also names the submitter that took each key, and creator the one that drew each id.
      disclosed are the ids a client can have seen, failed those for which a finishing update failed. */
  datatype State = State(
    rows: Rows,
    reservations: Reservations,
    submitters: Submitters,
    creator: map<TaskId, SubmitterId>,
    disclosed: set<TaskId>,
    records: set<TaskId>,
    closed: set<TaskId>,
    spawned: multiset<TaskId>,
    execs: map<TaskId, Exec>,
    cancels: map<CancelId, Cancel>,
    failed: set<TaskId>)

  function Boot(): State {
    State(map[], map[], map[], map[], {}, {}, {}, multiset{}, map[], map[], {})
  }

  function KeyOf(x: Submitter): Option<Key> {
    if x.request.Some? then Some(Key(x.owner, x.request.value)) else None
  }

  function RowKey(t: Task): Option<Key> {
    if t.request.Some? then Some(Key(t.owner, t.request.value)) else None
  }

  predicate Holding(pc: Pc) { pc.Reserved? || pc.Checked? || pc.Inserted? || pc.Published? || pc.Leaving? }

  predicate Carries(pc: Pc) { pc.Inserted? || pc.Published? || pc.Spawning? }

  ghost predicate Taken(rows: Rows, k: Option<Key>) {
    k.Some? && exists id :: id in rows && RowKey(rows[id]) == k
  }

  ghost function Find(rows: Rows, k: Option<Key>): (id: TaskId)
    requires Taken(rows, k)
    ensures id in rows && RowKey(rows[id]) == k
  {
    var id :| id in rows && RowKey(rows[id]) == k;
    id
  }

  /** The steps of a SubmitTask call. */
  datatype Front =
    | Arrive(owner: OwnerId, request: Option<RequestId>, immediate: bool)
    | Reserve
    | Lookup(up: bool)
    | Refuse
    | Create(id: TaskId, up: bool)
    | FinishNow(verdict: Verdict, up: bool)
    | Register
    | Release
    | Spawn

  /** The store calls of the goroutine executing a task, and the release of the waiters after each finish. */
  datatype Work =
    | Dispatch(up: bool)
    | Run(command: CommandId, up: bool)
    | Mark(verdict: Verdict, up: bool)
    | Complete

  /** The steps of a CancelTask call. */
  datatype Cut =
    | Read(id: TaskId)
    | Stop(verdict: Verdict, up: bool)
    | Close

  datatype Action =
    | Submitting(x: SubmitterId, front: Front)
    | Executing(id: TaskId, work: Work)
    | Cancelling(c: CancelId, cut: Cut)
    | Prune(now: nat)
    | Restart(now: nat, retention: nat)

  /** No id, record or started goroutine is lost. */
  ghost predicate Grows(s: State, t: State) {
    s.creator.Keys <= t.creator.Keys && s.records <= t.records && s.spawned <= t.spawned
  }

  function Moved(subs: Submitters, x: SubmitterId, pc: Pc): Submitters
    requires x in subs
  {
    subs[x := subs[x].(pc := pc)]
  }

  function Put(s: State, x: SubmitterId, pc: Pc): State
    requires x in s.submitters
  {
    s.(submitters := Moved(s.submitters, x, pc))
  }

  predicate At(s: State, x: SubmitterId, pc: Pc) { x in s.submitters && s.submitters[x].pc == pc }

  /** taskRequestReservations: test and set in one critical section. */
  function DoReserve(s: State, x: SubmitterId): (t: State)
    requires At(s, x, Arrived)
    ensures t.rows == s.rows && Grows(s, t)
  {
    match KeyOf(s.submitters[x])
    case None => Put(s, x, Checked)
    case Some(k) =>
      if k in s.reservations then Put(s, x, Over)
      else Put(s, x, Reserved).(reservations := s.reservations[k := x])
  }

  /** A lookup that fails reads as "not found". */
  ghost function DoLookup(s: State, x: SubmitterId, up: bool): (t: State)
    requires At(s, x, Reserved)
    ensures t.rows == s.rows && Grows(s, t)
  {
    var k := KeyOf(s.submitters[x]);
    if up && Taken(s.rows, k) then Put(s, x, Leaving).(disclosed := s.disclosed + {Find(s.rows, k)})
    else Put(s, x, Checked)
  }

  /** Under the partial unique index an insert whose key is taken is refused, and the row found instead. */
  ghost function DoCreate(s: State, x: SubmitterId, id: TaskId, up: bool, indexed: bool): (t: State)
    requires At(s, x, Checked) && id !in s.creator
    ensures Grows(s, t)
  {
    var k := KeyOf(s.submitters[x]);
    if !up then Put(s, x, Leaving)
    else if indexed && Taken(s.rows, k) then
      Put(s, x, Leaving).(disclosed := s.disclosed + {Find(s.rows, k)})
    else
      var task := Task(s.submitters[x].owner, s.submitters[x].request, Queued, None, None, "", 0, 0);
      Put(s, x, Inserted(id)).(rows := s.rows[id := task], creator := s.creator[id := x])
  }

  function MarkRows(s: State, id: TaskId, v: Verdict, up: bool): State
    requires Terminal(v.status)
  {
    if up then s.(rows := Execute(s.rows, MarkTerminal(id, v)).0) else s.(failed := s.failed + {id})
  }

  /** An immediate task is finished by its submitter; it has no runtime record. */
  function DoFinishNow(s: State, x: SubmitterId, v: Verdict, up: bool): (t: State)
    requires x in s.submitters && s.submitters[x].pc.Inserted? && Terminal(v.status)
    ensures Grows(s, t)
  {
    var id := s.submitters[x].pc.id;
    var next := Put(MarkRows(s, id, v, up), x, Leaving);
    if up then next.(disclosed := s.disclosed + {id}) else next
  }

  function DoRegister(s: State, x: SubmitterId): (t: State)
    requires x in s.submitters && s.submitters[x].pc.Inserted?
    ensures t.rows == s.rows && Grows(s, t)
  {
    var id := s.submitters[x].pc.id;
    Put(s, x, Published(id)).(records := s.records + {id})
  }

  /** delete(taskRequestReservations, key), in the deferred call or inline. */
  function DoRelease(s: State, x: SubmitterId): (t: State)
    requires x in s.submitters && (s.submitters[x].pc.Published? || s.submitters[x].pc.Leaving?)
    ensures t.rows == s.rows && Grows(s, t)
  {
    var pc := s.submitters[x].pc;
    var next := Put(s, x, if pc.Published? then Spawning(pc.id) else Over);
    match KeyOf(s.submitters[x])
    case None => next
    case Some(k) => next.(reservations := s.reservations - {k})
  }

  function DoSpawn(s: State, x: SubmitterId): (t: State)
    requires x in s.submitters && s.submitters[x].pc.Spawning?
    ensures t.rows == s.rows && Grows(s, t)
  {
    var id := s.submitters[x].pc.id;
    Put(s, x, Over).(spawned := s.spawned + multiset{id}, execs := s.execs[id := Begin],
        disclosed := s.disclosed + {id})
  }

  function SetExec(s: State, id: TaskId, e: Exec): State { s.(execs := s.execs[id := e]) }

  /** markTaskDispatched and markTaskRunning: a refused transition ends the goroutine, a failing store sends
      it to the fallback. */
  function DoMarkAlive(s: State, id: TaskId, st: Statement, up: bool): State
    requires st.MarkDispatched? || st.MarkRunning?
  {
    if !up then SetExec(s, id, Fallback)
    else if Execute(s.rows, st).1 == 0 then SetExec(s, id, Ended)
    else SetExec(s, id, Working).(rows := Execute(s.rows, st).0)
  }

  function Deregister(s: State, id: TaskId): State {
    s.(records := s.records - {id}, closed := if id in s.records then s.closed + {id} else s.closed)
  }

  function Revive(s: State, now: nat, retention: nat): State {
    State(Execute(s.rows, FailAllOnStartup(now, retention)).0,
          map[], map[], s.creator, s.creator.Keys, {}, {}, s.spawned, map[], map[], {})
  }

  ghost function NextSubmitter(s: State, x: SubmitterId, f: Front, indexed: bool): State {
    if x !in s.submitters then
      if f.Arrive? then s.(submitters := s.submitters[x := Submitter(f.owner, f.request, f.immediate, Arrived)]) else s
    else
      var u := s.submitters[x];
      if f.Reserve? && u.pc.Arrived? then DoReserve(s, x)
      else if f.Lookup? && u.pc.Reserved? then DoLookup(s, x, f.up)
      else if f.Refuse? && u.pc.Checked? then Put(s, x, Leaving)
      else if f.Create? && u.pc.Checked? && f.id !in s.creator then DoCreate(s, x, f.id, f.up, indexed)
      else if f.FinishNow? && u.pc.Inserted? && u.immediate && Terminal(f.verdict.status) then
        DoFinishNow(s, x, f.verdict, f.up)
      else if f.Register? && u.pc.Inserted? && !u.immediate then DoRegister(s, x)
      else if f.Release? && (u.pc.Published? || u.pc.Leaving?) then DoRelease(s, x)
      else if f.Spawn? && u.pc.Spawning? then DoSpawn(s, x)
      else s
  }

  function NextExec(s: State, id: TaskId, w: Work): State {
    if id !in s.execs then s
    else
      var e := s.execs[id];
      if w.Dispatch? && e.Begin? then DoMarkAlive(s, id, MarkDispatched(id), w.up)
      else if w.Run? && e.Working? then DoMarkAlive(s, id, MarkRunning(id, w.command), w.up)
      else if w.Mark? && (e.Working? || e.Fallback?) && Terminal(w.verdict.status) then
        SetExec(MarkRows(s, id, w.verdict, w.up), id, Marked(e.Working? && !w.up))
      else if w.Complete? && e.Marked? then
        SetExec(Deregister(s, id), id, if e.again then Fallback else Ended)
      else s
  }

  function NextCancel(s: State, c: CancelId, k: Cut): State {
    if c !in s.cancels then
      if k.Read? && k.id in s.disclosed && Live(s.rows, k.id)
      then s.(cancels := s.cancels[c := Cancel(k.id, false)]) else s
    else if k.Stop? && !s.cancels[c].marked && Terminal(k.verdict.status) then
      MarkRows(s, s.cancels[c].id, k.verdict, k.up).(cancels := s.cancels[c := s.cancels[c].(marked := true)])
    else if k.Close? && s.cancels[c].marked then
      Deregister(s, s.cancels[c].id).(cancels := s.cancels - {c})
    else s
  }

  ghost function Next(s: State, a: Action, indexed: bool): State {
    match a
    case Submitting(x, f) => NextSubmitter(s, x, f, indexed)
    case Executing(id, w) => NextExec(s, id, w)
    case Cancelling(c, k) => NextCancel(s, c, k)
    case Prune(now) => s.(rows := Execute(s.rows, DeleteExpired(now)).0)
    case Restart(now, retention) => Revive(s, now, retention)
  }

  ghost predicate IsRun(run: seq<State>, acts: seq<Action>, indexed: bool) {
    && |run| == |acts| + 1
    && run[0] == Boot()
    && forall i | 0 <= i < |acts| :: run[i + 1] == Next(run[i], acts[i], indexed)
  }

  // ---------------------------------------------------------------- what every step keeps

  /** Between taking and releasing a reservation, a submitter is the one it is booked under. */
  predicate Holds(res: Reservations, subs: Submitters, x: SubmitterId)
    requires x in subs
  {
    var k := KeyOf(subs[x]);
    Holding(subs[x].pc) && k.Some? ==> k.value in res && res[k.value] == x
  }

  predicate Held(res: Reservations, subs: Submitters, k: Key)
    requires k in res
  {
    res[k] in subs && Holding(subs[res[k]].pc) && KeyOf(subs[res[k]]) == Some(k)
  }

  /** A reservation belongs to exactly one submitter, and that submitter is between taking and releasing it. */
  predicate Exclusive(res: Reservations, subs: Submitters) {
    && (forall x | x in subs :: Holds(res, subs, x))
    && (forall k | k in res :: Held(res, subs, k))
  }

  /** An id is carried by its creator alone until the one goroutine executing it starts. */
  ghost predicate Single(s: State) {
    && s.rows.Keys <= s.creator.Keys
    && (forall x | x in s.submitters && Carries(s.submitters[x].pc) ::
          && s.submitters[x].pc.id in s.creator && s.creator[s.submitters[x].pc.id] == x
          && s.spawned[s.submitters[x].pc.id] == 0)
    && (forall id :: s.spawned[id] <= 1)
    && (forall id | s.spawned[id] == 1 :: id in s.creator)
    && (forall id | id in s.execs :: s.spawned[id] == 1)
  }

  /** A row whose record is not registered yet is live, unseen by any client and not cancellable. */
  predicate Hidden(rows: Rows, disclosed: set<TaskId>, records: set<TaskId>, u: Submitter) {
    u.pc.Inserted? ==>
      Live(rows, u.pc.id) && RowKey(rows[u.pc.id]) == KeyOf(u) && u.pc.id !in disclosed && u.pc.id !in records
  }

  predicate Unseen(rows: Rows, disclosed: set<TaskId>, records: set<TaskId>, subs: Submitters) {
    forall x | x in subs :: Hidden(rows, disclosed, records, subs[x])
  }

  predicate Protocol(s: State) {
    && Exclusive(s.reservations, s.submitters)
    && Unseen(s.rows, s.disclosed, s.records, s.submitters)
    && s.disclosed <= s.creator.Keys
    && (forall c | c in s.cancels :: s.cancels[c].id in s.disclosed)
  }

  predicate Finishing(s: State, id: TaskId) {
    || (id in s.execs && s.execs[id].Marked?)
    || (exists c | c in s.cancels :: s.cancels[c] == Cancel(id, true))
  }

  /** Its submitter has registered it and not started its goroutine yet. */
  predicate Awaited(s: State, id: TaskId) {
    && id in s.creator && s.creator[id] in s.submitters
    && (s.submitters[s.creator[id]].pc == Published(id) || s.submitters[s.creator[id]].pc == Spawning(id))
  }

  predicate Busy(s: State, id: TaskId) { (id in s.execs && !s.execs[id].Ended?) || Awaited(s, id) }

  /** A registered record is owed a release: somebody still works on its live row, or has just finished it. */
  predicate Owed(s: State, id: TaskId) {
    if Live(s.rows, id) then Busy(s, id) else Finishing(s, id)
  }

  predicate Accountable(s: State) {
    && s.records <= s.creator.Keys
    && forall id | id in s.records :: Owed(s, id)
  }

  predicate Answered(s: State, id: TaskId) { !Live(s.rows, id) || id in s.failed }

  /** Whoever is released, or about to be, finds the row finished or gone, unless an update failed. */
  predicate Truthful(s: State) {
    && s.closed <= s.creator.Keys
    && (forall id | id in s.closed :: Answered(s, id))
    && (forall id | id in s.execs && s.execs[id].Marked? :: Answered(s, id))
    && (forall c | c in s.cancels && s.cancels[c].marked :: Answered(s, s.cancels[c].id))
  }

  ghost predicate Bookkeeping(s: State) { Single(s) && Accountable(s) && Truthful(s) }

  ghost predicate Inv(s: State) { Protocol(s) && Bookkeeping(s) }

  // ---------------------------------------------------------------- proofs, part by part

  lemma MoveExclusive(res: Reservations, subs: Submitters, x: SubmitterId, pc: Pc)
    requires Exclusive(res, subs) && x in subs
    requires Holding(pc) == Holding(subs[x].pc) || KeyOf(subs[x]).None?
    ensures Exclusive(res, Moved(subs, x, pc))
  {
    assert forall k | k in res :: Held(res, subs, k);
    assert forall y | y in subs :: Holds(res, subs, y);
  }

  lemma TakeExclusive(res: Reservations, subs: Submitters, x: SubmitterId, k: Key)
    requires Exclusive(res, subs) && x in subs && !Holding(subs[x].pc) && KeyOf(subs[x]) == Some(k) && k !in res
    ensures Exclusive(res[k := x], Moved(subs, x, Reserved))
  {
    assert forall k | k in res :: Held(res, subs, k);
    assert forall y | y in subs :: Holds(res, subs, y);
  }

  lemma DropExclusive(res: Reservations, subs: Submitters, x: SubmitterId, k: Key, pc: Pc)
    requires Exclusive(res, subs) && x in subs && Holding(subs[x].pc) && KeyOf(subs[x]) == Some(k) && !Holding(pc)
    ensures k in res && res[k] == x && Exclusive(res - {k}, Moved(subs, x, pc))
  {
    assert forall k | k in res :: Held(res, subs, k);
    assert forall y | y in subs :: Holds(res, subs, y);
  }

  /** What a submitter can look up under a key it holds is past its registration. */
  lemma FoundIsPublic(s: State, x: SubmitterId, id: TaskId)
    requires Protocol(s) && x in s.submitters && Holding(s.submitters[x].pc) && !s.submitters[x].pc.Inserted?
    requires id in s.rows && RowKey(s.rows[id]) == KeyOf(s.submitters[x]) && KeyOf(s.submitters[x]).Some?
    ensures Unseen(s.rows, s.disclosed + {id}, s.records, s.submitters)
  {
    assert Holds(s.reservations, s.submitters, x);
    forall y | y in s.submitters
      ensures Hidden(s.rows, s.disclosed + {id}, s.records, s.submitters[y])
    {
      assert Holds(s.reservations, s.submitters, y);
      assert Hidden(s.rows, s.disclosed, s.records, s.submitters[y]);
    }
  }

  predicate SameTasks(s: State, t: State) {
    && t.rows == s.rows && t.records == s.records && t.closed == s.closed && t.failed == s.failed
    && t.creator == s.creator && t.spawned == s.spawned && t.execs == s.execs && t.cancels == s.cancels
  }

  /** Submitters that neither start carrying an id nor let one go do not concern the records. */
  lemma BookkeepingFramed(s: State, t: State)
    requires Bookkeeping(s) && SameTasks(s, t)
    requires forall x | x in t.submitters && Carries(t.submitters[x].pc) ::
      x in s.submitters && Carries(s.submitters[x].pc) && s.submitters[x].pc.id == t.submitters[x].pc.id
    requires forall id | id in s.records && Awaited(s, id) :: Awaited(t, id)
    ensures Bookkeeping(t)
  {
    assert Single(t);
    forall id | id in t.records
      ensures Owed(t, id)
    {
      assert Owed(s, id);
    }
  }

  lemma ArriveKeeps(s: State, x: SubmitterId, u: Submitter)
    requires Inv(s) && x !in s.submitters && u.pc == Arrived
    ensures Inv(s.(submitters := s.submitters[x := u]))
  {
    BookkeepingFramed(s, s.(submitters := s.submitters[x := u]));
  }

  /** The steps that move one submitter and touch nothing but the reservations and what clients have seen. */
  lemma FrontKeeps(s: State, x: SubmitterId, pc: Pc, res: Reservations, disclosed: set<TaskId>)
    requires Inv(s) && x in s.submitters
    requires Exclusive(res, Moved(s.submitters, x, pc))
    requires Unseen(s.rows, disclosed, s.records, s.submitters) && s.disclosed <= disclosed <= s.creator.Keys
    requires
      || (!Carries(pc) && !Carries(s.submitters[x].pc))
      || (s.submitters[x].pc.Published? && pc == Spawning(s.submitters[x].pc.id))
    ensures Inv(s.(submitters := Moved(s.submitters, x, pc), reservations := res, disclosed := disclosed))
  {
    var t := s.(submitters := Moved(s.submitters, x, pc), reservations := res, disclosed := disclosed);
    BookkeepingFramed(s, t);
    assert Unseen(t.rows, t.disclosed, t.records, t.submitters);
  }

  lemma ReserveKeeps(s: State, x: SubmitterId)
    requires Inv(s) && At(s, x, Arrived)
    ensures Inv(DoReserve(s, x))
  {
    var k, res := KeyOf(s.submitters[x]), s.reservations;
    if k.None? {
      MoveExclusive(res, s.submitters, x, Checked);
      FrontKeeps(s, x, Checked, res, s.disclosed);
    } else if k.value in res {
      MoveExclusive(res, s.submitters, x, Over);
      FrontKeeps(s, x, Over, res, s.disclosed);
    } else {
      TakeExclusive(res, s.submitters, x, k.value);
      FrontKeeps(s, x, Reserved, res[k.value := x], s.disclosed);
    }
  }

  lemma LookupKeeps(s: State, x: SubmitterId, up: bool)
    requires Inv(s) && At(s, x, Reserved)
    ensures Inv(DoLookup(s, x, up))
  {
    if up && Taken(s.rows, KeyOf(s.submitters[x])) {
      FoundKeeps(s, x);
    } else {
      MoveExclusive(s.reservations, s.submitters, x, Checked);
      FrontKeeps(s, x, Checked, s.reservations, s.disclosed);
    }
  }

  lemma FoundKeeps(s: State, x: SubmitterId)
    requires Inv(s) && (At(s, x, Reserved) || At(s, x, Checked)) && Taken(s.rows, KeyOf(s.submitters[x]))
    ensures Inv(Put(s, x, Leaving).(disclosed := s.disclosed + {Find(s.rows, KeyOf(s.submitters[x]))}))
  {
    var id := Find(s.rows, KeyOf(s.submitters[x]));
    FoundIsPublic(s, x, id);
    MoveExclusive(s.reservations, s.submitters, x, Leaving);
    FrontKeeps(s, x, Leaving, s.reservations, s.disclosed + {id});
  }

  lemma RefuseKeeps(s: State, x: SubmitterId)
    requires Inv(s) && At(s, x, Checked)
    ensures Inv(Put(s, x, Leaving))
  {
    MoveExclusive(s.reservations, s.submitters, x, Leaving);
    FrontKeeps(s, x, Leaving, s.reservations, s.disclosed);
  }

  lemma ReleaseKeeps(s: State, x: SubmitterId)
    requires Inv(s) && x in s.submitters && (s.submitters[x].pc.Published? || s.submitters[x].pc.Leaving?)
    ensures Inv(DoRelease(s, x))
  {
    var pc, k := s.submitters[x].pc, KeyOf(s.submitters[x]);
    var after := if pc.Published? then Spawning(pc.id) else Over;
    if k.Some? {
      DropExclusive(s.reservations, s.submitters, x, k.value, after);
      FrontKeeps(s, x, after, s.reservations - {k.value}, s.disclosed);
    } else {
      MoveExclusive(s.reservations, s.submitters, x, after);
      FrontKeeps(s, x, after, s.reservations, s.disclosed);
    }
  }

  /** The new row: live, carried by its submitter, and of no concern to any other id. */
  lemma CreateKeeps(s: State, x: SubmitterId, id: TaskId, indexed: bool)
    requires Inv(s) && At(s, x, Checked) && id !in s.creator
    requires !(indexed && Taken(s.rows, KeyOf(s.submitters[x])))
    ensures Inv(DoCreate(s, x, id, true, indexed))
  {
    var t := DoCreate(s, x, id, true, indexed);
    CreateKeepsProtocol(s, x, id, t.rows[id]);
    assert Single(t);
    forall i | i in t.records
      ensures Owed(t, i)
    {
      assert Owed(s, i) && i != id;
      assert Awaited(s, i) ==> s.creator[i] != x;
    }
  }

  lemma CreateKeepsProtocol(s: State, x: SubmitterId, id: TaskId, task: Task)
    requires Inv(s) && At(s, x, Checked) && id !in s.creator && task.status == Queued
    requires RowKey(task) == KeyOf(s.submitters[x])
    ensures Exclusive(s.reservations, Moved(s.submitters, x, Inserted(id)))
    ensures Unseen(s.rows[id := task], s.disclosed, s.records, Moved(s.submitters, x, Inserted(id)))
  {
    MoveExclusive(s.reservations, s.submitters, x, Inserted(id));
    assert forall y | y in s.submitters :: Hidden(s.rows, s.disclosed, s.records, s.submitters[y]);
  }

  /** Rows only fade: an id that exists is never live again once it is not. */
  predicate Fades(s: State, t: State) {
    && t.creator == s.creator && s.failed <= t.failed
    && t.rows.Keys <= s.rows.Keys
    && forall id | id in t.rows && Live(t.rows, id) :: Live(s.rows, id)
  }

  /** The rows after a finishing update: only id can change, and it is live afterwards only if the update failed. */
  lemma MarkRowsFades(s: State, id: TaskId, v: Verdict, up: bool)
    requires Terminal(v.status)
    ensures var t := MarkRows(s, id, v, up);
      && Fades(s, t) && t == s.(rows := t.rows, failed := t.failed) && t.rows.Keys == s.rows.Keys
      && (forall i | i in s.rows && i != id :: t.rows[i] == s.rows[i])
      && (forall i | i in s.rows :: RowKey(t.rows[i]) == RowKey(s.rows[i]))
      && (Live(t.rows, id) <==> !up && Live(s.rows, id))
      && Answered(t, id)
  {
  }

  lemma FinishNowKeeps(s: State, x: SubmitterId, v: Verdict, up: bool)
    requires Inv(s) && x in s.submitters && s.submitters[x].pc.Inserted? && Terminal(v.status)
    ensures Inv(DoFinishNow(s, x, v, up))
  {
    var id, m := s.submitters[x].pc.id, MarkRows(s, s.submitters[x].pc.id, v, up);
    MarkRowsFades(s, id, v, up);
    FinishedKeeps(s, m, x, if up then s.disclosed + {id} else s.disclosed);
  }

  lemma FinishedKeeps(s: State, m: State, x: SubmitterId, disclosed: set<TaskId>)
    requires Inv(s) && x in s.submitters && s.submitters[x].pc.Inserted? && Fades(s, m)
    requires m == s.(rows := m.rows, failed := m.failed) && m.rows.Keys == s.rows.Keys
    requires forall i | i in s.rows && i != s.submitters[x].pc.id :: m.rows[i] == s.rows[i]
    requires s.disclosed <= disclosed <= s.disclosed + {s.submitters[x].pc.id}
    ensures Inv(m.(submitters := Moved(s.submitters, x, Leaving), disclosed := disclosed))
  {
    var id, t := s.submitters[x].pc.id, m.(submitters := Moved(s.submitters, x, Leaving), disclosed := disclosed);
    MoveExclusive(s.reservations, s.submitters, x, Leaving);
    FinishNowUnseen(s, x, m.rows);
    assert Hidden(s.rows, s.disclosed, s.records, s.submitters[x]);
    forall i | i in t.records
      ensures Owed(t, i)
    {
      assert Owed(s, i) && i != id;
    }
    TruthFades(s, t);
  }

  lemma FinishNowUnseen(s: State, x: SubmitterId, rows: Rows)
    requires Inv(s) && x in s.submitters && s.submitters[x].pc.Inserted? && rows.Keys == s.rows.Keys
    requires forall i | i in s.rows && i != s.submitters[x].pc.id :: rows[i] == s.rows[i]
    ensures Unseen(rows, s.disclosed + {s.submitters[x].pc.id}, s.records, Moved(s.submitters, x, Leaving))
  {
    assert forall y | y in s.submitters :: Hidden(s.rows, s.disclosed, s.records, s.submitters[y]);
  }

  /** Nobody new is about to be released. */
  lemma TruthFades(s: State, t: State)
    requires Truthful(s) && Fades(s, t) && t.closed == s.closed && t.execs == s.execs && t.cancels == s.cancels
    ensures Truthful(t)
  {
  }

  lemma RegisterKeeps(s: State, x: SubmitterId)
    requires Inv(s) && x in s.submitters && s.submitters[x].pc.Inserted?
    ensures Inv(DoRegister(s, x))
  {
    var id, t := s.submitters[x].pc.id, DoRegister(s, x);
    MoveExclusive(s.reservations, s.submitters, x, Published(id));
    assert Hidden(s.rows, s.disclosed, s.records, s.submitters[x]);
    assert Awaited(t, id);
    forall i | i in t.records
      ensures Owed(t, i)
    {
      assert i != id ==> Owed(s, i);
    }
  }

  lemma SpawnKeeps(s: State, x: SubmitterId)
    requires Inv(s) && x in s.submitters && s.submitters[x].pc.Spawning?
    ensures Inv(DoSpawn(s, x))
  {
    var id, t := s.submitters[x].pc.id, DoSpawn(s, x);
    MoveExclusive(s.reservations, s.submitters, x, Over);
    assert id !in s.execs;
    assert Accountable(t) by {
      forall i | i in t.records
        ensures Owed(t, i)
      {
        assert Owed(s, i);
      }
    }
  }

  /** A step of a worker: submitters and reservations stand still, and only id is touched. */
  predicate Touches(s: State, t: State, id: TaskId) {
    && t.submitters == s.submitters && t.reservations == s.reservations && t.spawned == s.spawned
    && t.disclosed == s.disclosed && Fades(s, t)
    && (forall i | i in s.rows && i != id :: i in t.rows && t.rows[i] == s.rows[i])
    && (forall i | i in t.rows :: RowKey(t.rows[i]) == RowKey(s.rows[i]))
    && t.records <= s.records
    && (forall i | i in s.execs && i != id :: i in t.execs && t.execs[i] == s.execs[i])
    && t.execs.Keys == s.execs.Keys
  }

  /** An id with a running goroutine, or known to a client, is past its registration. */
  lemma TouchKeepsProtocol(s: State, t: State, id: TaskId)
    requires Inv(s) && Touches(s, t, id) && (id in s.execs || id in s.disclosed)
    requires forall c | c in t.cancels :: t.cancels[c].id in t.disclosed
    ensures Protocol(t) && Single(t)
  {
    forall x | x in t.submitters
      ensures Hidden(t.rows, t.disclosed, t.records, t.submitters[x])
    {
      assert Hidden(s.rows, s.disclosed, s.records, s.submitters[x]);
    }
  }

  lemma MarkAliveKeeps(s: State, id: TaskId, st: Statement)
    requires Inv(s) && id in s.execs && (s.execs[id].Begin? || s.execs[id].Working?)
    requires (st.MarkDispatched? || st.MarkRunning?) && st.id == id && Live(s.rows, id)
    ensures Inv(DoMarkAlive(s, id, st, true))
  {
    AliveRowKeeps(s, id, Execute(s.rows, st).0[id]);
  }

  /** The row of a running goroutine changes but stays live. */
  lemma AliveRowKeeps(s: State, id: TaskId, row: Task)
    requires Inv(s) && id in s.execs && !s.execs[id].Marked? && Live(s.rows, id)
    requires !Terminal(row.status) && RowKey(row) == RowKey(s.rows[id])
    ensures Inv(SetExec(s, id, Working).(rows := s.rows[id := row]))
  {
    var t := SetExec(s, id, Working).(rows := s.rows[id := row]);
    TouchKeepsProtocol(s, t, id);
    forall i | i in t.records
      ensures Owed(t, i)
    {
      assert Owed(s, i);
    }
  }

  /** The goroutine of a finished task ends; one whose update failed falls back. */
  lemma TurnAwayKeeps(s: State, id: TaskId, e: Exec)
    requires Inv(s) && id in s.execs && !s.execs[id].Marked? && (e.Fallback? || (e.Ended? && !Live(s.rows, id)))
    ensures Inv(SetExec(s, id, e))
  {
    var t := SetExec(s, id, e);
    TouchKeepsProtocol(s, t, id);
    forall i | i in t.records
      ensures Owed(t, i)
    {
      assert Owed(s, i);
    }
  }

  lemma MarkKeeps(s: State, id: TaskId, v: Verdict, up: bool, again: bool)
    requires Inv(s) && id in s.execs && Terminal(v.status)
    ensures Inv(SetExec(MarkRows(s, id, v, up), id, Marked(again)))
  {
    var t := SetExec(MarkRows(s, id, v, up), id, Marked(again));
    MarkRowsFades(s, id, v, up);
    TouchKeepsProtocol(s, t, id);
    forall i | i in t.records
      ensures Owed(t, i)
    {
      assert Owed(s, i);
    }
  }

  lemma CompleteKeeps(s: State, id: TaskId, e: Exec)
    requires Inv(s) && id in s.execs && s.execs[id].Marked? && (e.Fallback? || e.Ended?)
    ensures Inv(SetExec(Deregister(s, id), id, e))
  {
    var t := SetExec(Deregister(s, id), id, e);
    TouchKeepsProtocol(s, t, id);
    forall i | i in t.records
      ensures Owed(t, i)
    {
      assert Owed(s, i);
    }
  }

  lemma CancelReadKeeps(s: State, c: CancelId, id: TaskId)
    requires Inv(s) && c !in s.cancels && id in s.disclosed
    ensures Inv(s.(cancels := s.cancels[c := Cancel(id, false)]))
  {
    var t := s.(cancels := s.cancels[c := Cancel(id, false)]);
    TouchKeepsProtocol(s, t, id);
    forall i | i in t.records
      ensures Owed(t, i)
    {
      assert Owed(s, i);
      if Finishing(s, i) {
        StillFinishing(s, t, i);
      }
    }
  }

  lemma StillFinishing(s: State, t: State, i: TaskId)
    requires Finishing(s, i)
    requires i in s.execs && s.execs[i].Marked? ==> i in t.execs && t.execs[i].Marked?
    requires forall c | c in s.cancels && s.cancels[c] == Cancel(i, true) ::
      c in t.cancels && t.cancels[c] == s.cancels[c]
    ensures Finishing(t, i)
  {
    if !(i in s.execs && s.execs[i].Marked?) {
      var c :| c in s.cancels && s.cancels[c] == Cancel(i, true);
      assert t.cancels[c] == Cancel(i, true);
    }
  }

  lemma CancelMarkKeeps(s: State, c: CancelId, v: Verdict, up: bool)
    requires Inv(s) && c in s.cancels && !s.cancels[c].marked && Terminal(v.status)
    ensures Inv(MarkRows(s, s.cancels[c].id, v, up).(cancels := s.cancels[c := s.cancels[c].(marked := true)]))
  {
    MarkRowsFades(s, s.cancels[c].id, v, up);
    CancelMarkedKeeps(s, MarkRows(s, s.cancels[c].id, v, up), c);
  }

  lemma CancelMarkedKeeps(s: State, m: State, c: CancelId)
    requires Inv(s) && c in s.cancels && !s.cancels[c].marked && Fades(s, m)
    requires m == s.(rows := m.rows, failed := m.failed) && m.rows.Keys == s.rows.Keys
    requires forall i | i in s.rows && i != s.cancels[c].id :: m.rows[i] == s.rows[i]
    requires forall i | i in s.rows :: RowKey(m.rows[i]) == RowKey(s.rows[i])
    requires Answered(m, s.cancels[c].id)
    ensures Inv(m.(cancels := s.cancels[c := s.cancels[c].(marked := true)]))
  {
    var id := s.cancels[c].id;
    var t := m.(cancels := s.cancels[c := Cancel(id, true)]);
    TouchKeepsProtocol(s, t, id);
    assert t.cancels[c] == Cancel(id, true);
    forall i | i in t.records
      ensures Owed(t, i)
    {
      assert Owed(s, i);
      if Finishing(s, i) {
        StillFinishing(s, t, i);
      }
    }
  }

  lemma CancelCompleteKeeps(s: State, c: CancelId)
    requires Inv(s) && c in s.cancels && s.cancels[c].marked
    ensures Inv(Deregister(s, s.cancels[c].id).(cancels := s.cancels - {c}))
  {
    var id := s.cancels[c].id;
    var t := Deregister(s, id).(cancels := s.cancels - {c});
    TouchKeepsProtocol(s, t, id);
    forall i | i in t.records
      ensures Owed(t, i)
    {
      assert Owed(s, i);
      if Finishing(s, i) {
        StillFinishing(s, t, i);
      }
    }
  }

  lemma PruneKeeps(s: State, now: nat)
    requires Inv(s)
    ensures Inv(s.(rows := Execute(s.rows, DeleteExpired(now)).0))
  {
    var t := s.(rows := Execute(s.rows, DeleteExpired(now)).0);
    forall i | i in t.records
      ensures Owed(t, i)
    {
      assert Owed(s, i);
    }
  }

  lemma RestartKeeps(s: State, now: nat, retention: nat)
    requires Inv(s)
    ensures Inv(Revive(s, now, retention))
  {
  }

  lemma SubmitterKeeps(s: State, x: SubmitterId, f: Front, indexed: bool)
    requires Inv(s)
    ensures Inv(NextSubmitter(s, x, f, indexed))
  {
    if NextSubmitter(s, x, f, indexed) != s {
      match f
      case Arrive(o, r, imm) => ArriveKeeps(s, x, Submitter(o, r, imm, Arrived));
      case Reserve => ReserveKeeps(s, x);
      case Lookup(up) => LookupKeeps(s, x, up);
      case Refuse => RefuseKeeps(s, x);
      case Create(id, up) =>
        if up && !(indexed && Taken(s.rows, KeyOf(s.submitters[x]))) {
          CreateKeeps(s, x, id, indexed);
        } else if up {
          FoundKeeps(s, x);
        } else {
          RefuseKeeps(s, x);
        }
      case FinishNow(v, up) => FinishNowKeeps(s, x, v, up);
      case Register => RegisterKeeps(s, x);
      case Release => ReleaseKeeps(s, x);
      case Spawn => SpawnKeeps(s, x);
    }
  }

  lemma AliveKeeps(s: State, id: TaskId, st: Statement, up: bool)
    requires Inv(s) && id in s.execs && (s.execs[id].Begin? || s.execs[id].Working?)
    requires (st.MarkDispatched? || st.MarkRunning?) && st.id == id
    ensures Inv(DoMarkAlive(s, id, st, up))
  {
    if !up {
      TurnAwayKeeps(s, id, Fallback);
    } else if Live(s.rows, id) {
      MarkAliveKeeps(s, id, st);
    } else {
      TurnAwayKeeps(s, id, Ended);
    }
  }

  lemma ExecKeeps(s: State, id: TaskId, w: Work)
    requires Inv(s)
    ensures Inv(NextExec(s, id, w))
  {
    if NextExec(s, id, w) != s {
      match w
      case Dispatch(up) => AliveKeeps(s, id, MarkDispatched(id), up);
      case Run(command, up) => AliveKeeps(s, id, MarkRunning(id, command), up);
      case Mark(v, up) => MarkKeeps(s, id, v, up, s.execs[id].Working? && !up);
      case Complete => CompleteKeeps(s, id, if s.execs[id].again then Fallback else Ended);
    }
  }

  lemma CancelKeeps(s: State, c: CancelId, k: Cut)
    requires Inv(s)
    ensures Inv(NextCancel(s, c, k))
  {
    if NextCancel(s, c, k) != s {
      match k
      case Read(id) => CancelReadKeeps(s, c, id);
      case Stop(v, up) => CancelMarkKeeps(s, c, v, up);
      case Close => CancelCompleteKeeps(s, c);
    }
  }

  lemma NextKeeps(s: State, a: Action, indexed: bool)
    requires Inv(s)
    ensures Inv(Next(s, a, indexed))
  {
    match a
    case Submitting(x, f) => SubmitterKeeps(s, x, f, indexed);
    case Executing(id, w) => ExecKeeps(s, id, w);
    case Cancelling(c, k) => CancelKeeps(s, c, k);
    case Prune(now) => PruneKeeps(s, now);
    case Restart(now, retention) => RestartKeeps(s, now, retention);
  }

  lemma {:induction false} InvOverRuns(run: seq<State>, acts: seq<Action>, indexed: bool, i: nat)
    requires IsRun(run, acts, indexed) && i < |run|
    ensures Inv(run[i])
    decreases i
  {
    if i > 0 {
      InvOverRuns(run, acts, indexed, i - 1);
      assert run[i - 1 + 1] == Next(run[i - 1], acts[i - 1], indexed);
      NextKeeps(run[i - 1], acts[i - 1], indexed);
    }
  }
}
