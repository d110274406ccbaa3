/** What interleaved submissions, executions and cancellations guarantee. */
module TaskTheorems {
  import opened Common
  import opened TaskStore
  import opened TaskSubmission

  // ---------------------------------------------------------------- one row per request

  ghost predicate Unique(rows: Rows) {
    forall i, j | i in rows && j in rows && RowKey(rows[i]).Some? && RowKey(rows[i]) == RowKey(rows[j]) :: i == j
  }

  /** A submitter past its lookup knows that its key is free, and nobody else can take it. */
  ghost predicate Vacant(s: State) {
    forall x | x in s.submitters && s.submitters[x].pc.Checked? :: !Taken(s.rows, KeyOf(s.submitters[x]))
  }

  /** Rows are created by Create alone; every other step keeps the keys of the rows it leaves. */
  predicate KeysOnlyLost(r: Rows, q: Rows) {
    q.Keys <= r.Keys && forall i | i in q :: RowKey(q[i]) == RowKey(r[i])
  }

  ghost predicate Creates(s: State, a: Action, indexed: bool) {
    && a.Submitting? && a.front.Create? && At(s, a.x, Checked) && a.front.id !in s.creator && a.front.up
    && !(indexed && Taken(s.rows, KeyOf(s.submitters[a.x])))
  }

  lemma OnlyCreateAdds(s: State, a: Action, indexed: bool)
    requires !Creates(s, a, indexed)
    ensures KeysOnlyLost(s.rows, Next(s, a, indexed).rows)
  {
    match a
    case Submitting(x, f) => SubmitterAddsNone(s, x, f, indexed);
    case Executing(id, w) => ExecLoses(s, id, w);
    case Cancelling(c, k) => CancelLoses(s, c, k);
    case Prune(now) =>
    case Restart(now, retention) =>
  }

  lemma SubmitterAddsNone(s: State, x: SubmitterId, f: Front, indexed: bool)
    requires !Creates(s, Submitting(x, f), indexed)
    ensures KeysOnlyLost(s.rows, NextSubmitter(s, x, f, indexed).rows)
  {
    if x in s.submitters {
      var u := s.submitters[x];
      if f.FinishNow? && u.pc.Inserted? && Terminal(f.verdict.status) {
        MarkRowsFades(s, u.pc.id, f.verdict, f.up);
      } else if !f.FinishNow? {
        SameRows(s, x, f, indexed);
      }
    }
  }

  lemma SameRows(s: State, x: SubmitterId, f: Front, indexed: bool)
    requires x in s.submitters && !f.FinishNow? && !Creates(s, Submitting(x, f), indexed)
    ensures NextSubmitter(s, x, f, indexed).rows == s.rows
  {
    var u := s.submitters[x];
    if f.Create? && u.pc.Checked? && f.id !in s.creator {
      NotCreated(s, x, f.id, f.up, indexed);
    }
  }

  lemma NotCreated(s: State, x: SubmitterId, id: TaskId, up: bool, indexed: bool)
    requires At(s, x, Checked) && id !in s.creator && !(up && !(indexed && Taken(s.rows, KeyOf(s.submitters[x]))))
    ensures DoCreate(s, x, id, up, indexed).rows == s.rows
  {
  }

  lemma SubmitterGrows(s: State, x: SubmitterId, f: Front, indexed: bool)
    ensures Grows(s, NextSubmitter(s, x, f, indexed))
  {
  }

  /** Workers add no rows, and leave submitters, reservations and what was started alone. */
  predicate Aside(s: State, t: State) {
    && KeysOnlyLost(s.rows, t.rows) && t.submitters == s.submitters && t.reservations == s.reservations
    && t.creator == s.creator && t.spawned == s.spawned
  }

  lemma MarkAside(s: State, id: TaskId, v: Verdict, up: bool)
    requires Terminal(v.status)
    ensures Aside(s, MarkRows(s, id, v, up))
  {
  }

  lemma AliveAside(s: State, id: TaskId, st: Statement, up: bool)
    requires st.MarkDispatched? || st.MarkRunning?
    ensures Aside(s, DoMarkAlive(s, id, st, up))
  {
  }

  lemma ExecLoses(s: State, id: TaskId, w: Work)
    ensures Aside(s, NextExec(s, id, w))
  {
    if w.Dispatch? {
      AliveAside(s, id, MarkDispatched(id), w.up);
    } else if w.Run? {
      AliveAside(s, id, MarkRunning(id, w.command), w.up);
    } else if w.Mark? && Terminal(w.verdict.status) {
      MarkAside(s, id, w.verdict, w.up);
    }
  }

  lemma CancelLoses(s: State, c: CancelId, k: Cut)
    ensures Aside(s, NextCancel(s, c, k))
  {
    if k.Stop? && c in s.cancels && Terminal(k.verdict.status) {
      MarkAside(s, s.cancels[c].id, k.verdict, k.up);
    }
  }

  lemma UniqueLost(r: Rows, q: Rows)
    requires Unique(r) && KeysOnlyLost(r, q)
    ensures Unique(q)
    ensures forall k :: Taken(q, k) ==> Taken(r, k)
  {
    forall k | Taken(q, k)
      ensures Taken(r, k)
    {
      var id :| id in q && RowKey(q[id]) == k;
      assert RowKey(r[id]) == k;
    }
  }

  lemma UniqueAdded(r: Rows, id: TaskId, task: Task)
    requires Unique(r) && id !in r && !Taken(r, RowKey(task))
    ensures Unique(r[id := task])
  {
  }

  /** A step of x leaves the other submitters where they are, and leads x on to the insert only after a lookup
      that found nothing, or without a request id. */
  ghost predicate Tame(s: State, t: State, x: SubmitterId, lost: bool) {
    && (forall y | y in t.submitters && t.submitters[y].pc.Checked? && y != x ::
          y in s.submitters && t.submitters[y] == s.submitters[y])
    && (x in t.submitters && t.submitters[x].pc.Checked? ==>
          var k := KeyOf(t.submitters[x]);
          k.None? || !Taken(s.rows, k) || lost || (x in s.submitters && s.submitters[x] == t.submitters[x]))
  }

  lemma MovedTame(s: State, t: State, x: SubmitterId, pc: Pc, lost: bool)
    requires x in s.submitters && t.submitters == Moved(s.submitters, x, pc)
    requires pc.Checked? ==> KeyOf(s.submitters[x]).None? || !Taken(s.rows, KeyOf(s.submitters[x])) || lost
    ensures Tame(s, t, x, lost)
  {
    assert t.submitters[x] == s.submitters[x].(pc := pc);
    assert KeyOf(t.submitters[x]) == KeyOf(s.submitters[x]);
  }

  lemma ReserveTame(s: State, x: SubmitterId)
    requires At(s, x, Arrived)
    ensures Tame(s, DoReserve(s, x), x, false)
  {
    var k := KeyOf(s.submitters[x]);
    var pc := if k.None? then Checked else if k.value in s.reservations then Over else Reserved;
    MovedTame(s, DoReserve(s, x), x, pc, false);
  }

  lemma LookupTame(s: State, x: SubmitterId, up: bool)
    requires At(s, x, Reserved)
    ensures Tame(s, DoLookup(s, x, up), x, !up)
  {
    var found := up && Taken(s.rows, KeyOf(s.submitters[x]));
    MovedTame(s, DoLookup(s, x, up), x, if found then Leaving else Checked, !up);
  }

  lemma CreateTame(s: State, x: SubmitterId, id: TaskId, up: bool, indexed: bool)
    requires At(s, x, Checked) && id !in s.creator
    ensures Tame(s, DoCreate(s, x, id, up, indexed), x, false)
  {
  }

  lemma ReleaseTame(s: State, x: SubmitterId)
    requires x in s.submitters && (s.submitters[x].pc.Published? || s.submitters[x].pc.Leaving?)
    ensures Tame(s, DoRelease(s, x), x, false)
  {
    var pc := s.submitters[x].pc;
    MovedTame(s, DoRelease(s, x), x, if pc.Published? then Spawning(pc.id) else Over, false);
  }

  lemma SubmitterTame(s: State, x: SubmitterId, f: Front, indexed: bool)
    ensures Tame(s, NextSubmitter(s, x, f, indexed), x, f.Lookup? && !f.up)
  {
    if x in s.submitters {
      var u := s.submitters[x];
      if f.Reserve? && u.pc.Arrived? {
        ReserveTame(s, x);
      } else if f.Lookup? && u.pc.Reserved? {
        LookupTame(s, x, f.up);
      } else if f.Create? && u.pc.Checked? && f.id !in s.creator {
        CreateTame(s, x, f.id, f.up, indexed);
      } else if f.Release? && (u.pc.Published? || u.pc.Leaving?) {
        ReleaseTame(s, x);
      } else if !f.Reserve? && !f.Lookup? && !f.Create? && !f.Release? {
        OtherwiseTame(s, x, f, indexed);
      }
    }
  }

  lemma OtherwiseTame(s: State, x: SubmitterId, f: Front, indexed: bool)
    requires x in s.submitters && !f.Reserve? && !f.Lookup? && !f.Create? && !f.Release?
    ensures Tame(s, NextSubmitter(s, x, f, indexed), x, false)
  {
    var u := s.submitters[x];
    if f.Refuse? && u.pc.Checked? {
      MovedTame(s, Put(s, x, Leaving), x, Leaving, false);
    } else if f.FinishNow? && u.pc.Inserted? && Terminal(f.verdict.status) {
      MovedTame(s, DoFinishNow(s, x, f.verdict, f.up), x, Leaving, false);
    } else if f.Register? && u.pc.Inserted? {
      MovedTame(s, DoRegister(s, x), x, Published(u.pc.id), false);
    } else if f.Spawn? && u.pc.Spawning? {
      MovedTame(s, DoSpawn(s, x), x, Over, false);
    }
  }

  predicate LookupFails(a: Action) { a.Submitting? && a.front.Lookup? && !a.front.up }

  /** A lookup that fails although the request has a row: it reads as "not found", and the submitter goes on to the
      insert. */
  ghost predicate Misses(s: State, a: Action) {
    LookupFails(a) && At(s, a.x, Reserved) && Taken(s.rows, KeyOf(s.submitters[a.x]))
  }

  lemma VacantKept(s: State, a: Action, indexed: bool)
    requires Inv(s) && Unique(s.rows) && Vacant(s) && !Misses(s, a)
    ensures Vacant(Next(s, a, indexed)) && Unique(Next(s, a, indexed).rows)
  {
    if Creates(s, a, indexed) {
      CreateVacant(s, a.x, a.front.id, indexed);
    } else {
      OnlyCreateAdds(s, a, indexed);
      UniqueLost(s.rows, Next(s, a, indexed).rows);
      VacantElsewhere(s, a, indexed);
    }
  }

  lemma VacantElsewhere(s: State, a: Action, indexed: bool)
    requires Vacant(s) && !Misses(s, a)
    requires forall k :: Taken(Next(s, a, indexed).rows, k) ==> Taken(s.rows, k)
    ensures Vacant(Next(s, a, indexed))
  {
    var t := Next(s, a, indexed);
    match a
    case Submitting(x, f) =>
      SubmitterTame(s, x, f, indexed);
    case Executing(id, w) => ExecLoses(s, id, w);
    case Cancelling(c, k) => CancelLoses(s, c, k);
    case Prune(now) =>
    case Restart(now, retention) =>
  }

  lemma CreateVacant(s: State, x: SubmitterId, id: TaskId, indexed: bool)
    requires Inv(s) && Unique(s.rows) && Vacant(s) && At(s, x, Checked) && id !in s.creator
    ensures Vacant(DoCreate(s, x, id, true, indexed)) && Unique(DoCreate(s, x, id, true, indexed).rows)
  {
    var t := DoCreate(s, x, id, true, indexed);
    UniqueAdded(s.rows, id, t.rows[id]);
    assert Holds(s.reservations, s.submitters, x);
    forall y | y in t.submitters && t.submitters[y].pc.Checked?
      ensures !Taken(t.rows, KeyOf(t.submitters[y]))
    {
      assert y != x && Holds(s.reservations, s.submitters, y);
      assert !Taken(s.rows, KeyOf(s.submitters[y]));
      assert RowKey(t.rows[id]) == KeyOf(s.submitters[x]);
    }
  }

  /** A step leaves a submitter at the insert with its key taken, with or without the index, if and only if it is a
      lookup that fails although the row is there. */
  lemma VacantLostIff(s: State, a: Action, indexed: bool)
    requires Inv(s) && Unique(s.rows) && Vacant(s)
    ensures Vacant(Next(s, a, indexed)) <==> !Misses(s, a)
  {
    if Misses(s, a) {
      var t := DoLookup(s, a.x, false);
      assert Next(s, a, indexed) == t;
      assert t.submitters[a.x] == s.submitters[a.x].(pc := Checked);
      assert t.submitters[a.x].pc.Checked? && Taken(t.rows, KeyOf(t.submitters[a.x]));
    } else {
      VacantKept(s, a, indexed);
    }
  }

  ghost predicate NothingMissed(run: seq<State>, acts: seq<Action>)
    requires |run| == |acts| + 1
  {
    forall i | 0 <= i < |acts| :: !Misses(run[i], acts[i])
  }

  /** At most one row per (owner, request id), from the reservations alone: whatever else the store does, with or
      without the unique index, as long as no lookup fails for a request that has a row. */
  lemma {:induction false} OneRowPerRequest(run: seq<State>, acts: seq<Action>, indexed: bool, i: nat)
    requires IsRun(run, acts, indexed) && NothingMissed(run, acts) && i < |run|
    ensures Unique(run[i].rows) && Vacant(run[i])
    decreases i
  {
    if i > 0 {
      OneRowPerRequest(run, acts, indexed, i - 1);
      InvOverRuns(run, acts, indexed, i - 1);
      assert run[i - 1 + 1] == Next(run[i - 1], acts[i - 1], indexed);
      VacantKept(run[i - 1], acts[i - 1], indexed);
    }
  }

  /** With the index, whatever fails. */
  lemma {:induction false} IndexedRowPerRequest(run: seq<State>, acts: seq<Action>, i: nat)
    requires IsRun(run, acts, true) && i < |run|
    ensures Unique(run[i].rows)
    decreases i
  {
    if i > 0 {
      IndexedRowPerRequest(run, acts, i - 1);
      InvOverRuns(run, acts, true, i - 1);
      var s, a := run[i - 1], acts[i - 1];
      assert run[i - 1 + 1] == Next(s, a, true);
      if Creates(s, a, true) {
        CreatedBy(s, a.x, a.front.id, true);
      } else {
        OnlyCreateAdds(s, a, true);
        UniqueLost(s.rows, run[i].rows);
      }
    }
  }

  lemma CreatedBy(s: State, x: SubmitterId, id: TaskId, indexed: bool)
    requires Inv(s) && Unique(s.rows) && At(s, x, Checked) && id !in s.creator
    requires !Taken(s.rows, KeyOf(s.submitters[x]))
    ensures Unique(DoCreate(s, x, id, true, indexed).rows)
  {
    UniqueAdded(s.rows, id, DoCreate(s, x, id, true, indexed).rows[id]);
  }

  /** Where the protocol alone is not enough: a request that already has a row, submitted again while the
      lookup fails. Without the index it gets a second row, with it the insert is refused. */
  lemma FailedLookupDuplicates(s: State, y: SubmitterId, k: Key, i: TaskId, j: TaskId, indexed: bool)
    requires Inv(s) && y !in s.submitters && k !in s.reservations
    requires i in s.rows && RowKey(s.rows[i]) == Some(k) && j !in s.creator
    ensures
      var s1 := Next(s, Submitting(y, Arrive(k.owner, Some(k.request), false)), indexed);
      var s2 := Next(s1, Submitting(y, Reserve), indexed);
      var s3 := Next(s2, Submitting(y, Lookup(false)), indexed);
      var s4 := Next(s3, Submitting(y, Create(j, true)), indexed);
      && (j in s4.rows <==> !indexed)
      && (!indexed ==> i in s4.rows && RowKey(s4.rows[i]) == RowKey(s4.rows[j]) == Some(k))
  {
    var u := Submitter(k.owner, Some(k.request), false, Arrived);
    var s1 := Next(s, Submitting(y, Arrive(k.owner, Some(k.request), false)), indexed);
    assert s1.submitters[y] == u;
    var s2 := Next(s1, Submitting(y, Reserve), indexed);
    assert s2 == DoReserve(s1, y) && s2.submitters[y] == u.(pc := Reserved);
    var s3 := Next(s2, Submitting(y, Lookup(false)), indexed);
    assert s3 == Put(s2, y, Checked) && s3.submitters[y] == u.(pc := Checked) && s3.rows == s.rows;
    assert Taken(s3.rows, Some(k));
    assert Next(s3, Submitting(y, Create(j, true)), indexed) == DoCreate(s3, y, j, true, indexed);
  }

  // ---------------------------------------------------------------- one goroutine, one releaser

  predicate Started(t: Task) { t.status.Dispatched? || t.status.Running? }

  /** A row that is dispatched or running has had a goroutine. */
  predicate Driven(s: State) { forall id | id in s.rows && Started(s.rows[id]) :: s.spawned[id] == 1 }

  /** Only its goroutine makes a row dispatched or running. */
  predicate StartedBefore(r: Rows, q: Rows) {
    forall id | id in q && Started(q[id]) :: id in r && Started(r[id])
  }

  lemma SubmitterStartsNone(s: State, x: SubmitterId, f: Front, indexed: bool)
    requires Inv(s)
    ensures StartedBefore(s.rows, NextSubmitter(s, x, f, indexed).rows)
  {
    if x in s.submitters {
      var u := s.submitters[x];
      if f.FinishNow? && u.pc.Inserted? && Terminal(f.verdict.status) {
        MarkStartsNone(s, u.pc.id, f.verdict, f.up);
      } else if Creates(s, Submitting(x, f), indexed) {
        assert NextSubmitter(s, x, f, indexed) == DoCreate(s, x, f.id, true, indexed);
      } else if !f.FinishNow? {
        SameRows(s, x, f, indexed);
      }
    }
  }

  lemma MarkStartsNone(s: State, id: TaskId, v: Verdict, up: bool)
    requires Terminal(v.status)
    ensures StartedBefore(s.rows, MarkRows(s, id, v, up).rows)
  {
  }

  lemma ExecStartsOwn(s: State, i: TaskId, w: Work)
    ensures forall id | id in NextExec(s, i, w).rows && Started(NextExec(s, i, w).rows[id]) ::
      (id == i && i in s.execs) || (id in s.rows && Started(s.rows[id]))
  {
    if w.Mark? && Terminal(w.verdict.status) {
      MarkStartsNone(s, i, w.verdict, w.up);
    } else if w.Dispatch? {
      AliveStartsOwn(s, i, MarkDispatched(i), w.up);
    } else if w.Run? {
      AliveStartsOwn(s, i, MarkRunning(i, w.command), w.up);
    }
  }

  lemma AliveStartsOwn(s: State, i: TaskId, st: Statement, up: bool)
    requires (st.MarkDispatched? || st.MarkRunning?) && st.id == i
    ensures var q := DoMarkAlive(s, i, st, up).rows;
      forall id | id in q && Started(q[id]) :: id == i || (id in s.rows && Started(s.rows[id]))
  {
  }

  lemma CancelStartsNone(s: State, c: CancelId, k: Cut)
    ensures StartedBefore(s.rows, NextCancel(s, c, k).rows)
  {
    if c in s.cancels && k.Stop? && Terminal(k.verdict.status) {
      MarkStartsNone(s, s.cancels[c].id, k.verdict, k.up);
    }
  }

  lemma DrivenKept(s: State, a: Action, indexed: bool)
    requires Inv(s) && Driven(s)
    ensures Driven(Next(s, a, indexed))
  {
    NextKeeps(s, a, indexed);
    match a
    case Submitting(x, f) =>
      SubmitterStartsNone(s, x, f, indexed);
      SubmitterGrows(s, x, f, indexed);
    case Executing(i, w) =>
      ExecStartsOwn(s, i, w);
      ExecLoses(s, i, w);
    case Cancelling(c, k) =>
      CancelStartsNone(s, c, k);
      CancelLoses(s, c, k);
    case Prune(now) =>
    case Restart(now, retention) =>
  }

  lemma {:induction false} DrivenOverRuns(run: seq<State>, acts: seq<Action>, indexed: bool, i: nat)
    requires IsRun(run, acts, indexed) && i < |run|
    ensures Driven(run[i])
    decreases i
  {
    if i > 0 {
      DrivenOverRuns(run, acts, indexed, i - 1);
      InvOverRuns(run, acts, indexed, i - 1);
      assert run[i - 1 + 1] == Next(run[i - 1], acts[i - 1], indexed);
      DrivenKept(run[i - 1], acts[i - 1], indexed);
    }
  }

  /** A task is executed at most once, by the goroutine its own submitter started; and one that is dispatched or running
      has had exactly one. */
  lemma ExecutedOnce(run: seq<State>, acts: seq<Action>, indexed: bool, i: nat, id: TaskId)
    requires IsRun(run, acts, indexed) && i < |run|
    ensures run[i].spawned[id] <= 1
    ensures id in run[i].execs ==> run[i].spawned[id] == 1
    ensures id in run[i].rows && Started(run[i].rows[id]) ==> run[i].spawned[id] == 1
  {
    InvOverRuns(run, acts, indexed, i);
    DrivenOverRuns(run, acts, indexed, i);
  }

  /** A reservation that a step takes away was the stepping submitter's own, unless the process restarted. */
  lemma ReleasedByItsTaker(run: seq<State>, acts: seq<Action>, indexed: bool, i: nat, k: Key)
    requires IsRun(run, acts, indexed) && i < |acts|
    requires k in run[i].reservations && k !in run[i + 1].reservations
    ensures acts[i].Restart? || acts[i] == Submitting(run[i].reservations[k], Release)
  {
    InvOverRuns(run, acts, indexed, i);
    var s := run[i];
    match acts[i]
    case Submitting(x, f) => OnlyReleaseDrops(s, x, f, indexed, k);
    case Executing(id, w) => ExecLoses(s, id, w);
    case Cancelling(c, cut) => CancelLoses(s, c, cut);
    case Prune(now) =>
    case Restart(now, retention) =>
  }

  lemma OnlyReleases(s: State, x: SubmitterId, f: Front, indexed: bool)
    requires !f.Release?
    ensures s.reservations.Keys <= NextSubmitter(s, x, f, indexed).reservations.Keys
  {
    match f
    case Arrive(_, _, _) =>
    case Reserve =>
    case Lookup(_) =>
    case Refuse =>
    case Create(_, _) =>
    case FinishNow(_, _) =>
    case Register =>
    case Spawn =>
  }

  lemma OnlyReleaseDrops(s: State, x: SubmitterId, f: Front, indexed: bool, k: Key)
    requires Protocol(s)
    requires k in s.reservations && k !in NextSubmitter(s, x, f, indexed).reservations
    ensures x == s.reservations[k] && f == Release
  {
    if !f.Release? {
      OnlyReleases(s, x, f, indexed);
    }
    assert Holds(s.reservations, s.submitters, x);
  }

  // ---------------------------------------------------------------- waiters

  /** A waiter is released only once its row is finished or gone, unless a finishing update failed. */
  lemma ReleasedWaiterSeesEnd(run: seq<State>, acts: seq<Action>, indexed: bool, i: nat, id: TaskId)
    requires IsRun(run, acts, indexed) && i < |run| && id in run[i].closed
    ensures !Live(run[i].rows, id) || id in run[i].failed
  {
    InvOverRuns(run, acts, indexed, i);
  }

  /** Nothing works on a task any more: no submitter, no running goroutine, no cancellation. */
  ghost predicate Quiet(s: State, id: TaskId) {
    && !Busy(s, id)
    && (forall c | c in s.cancels :: s.cancels[c].id != id)
  }

  /** No waiter is forgotten: when nothing works on a task any more, its record is gone and its waiters
      released, even after failed updates. */
  lemma NoWaiterForgotten(run: seq<State>, acts: seq<Action>, indexed: bool, i: nat, id: TaskId)
    requires IsRun(run, acts, indexed) && i < |run| && Quiet(run[i], id)
    ensures id !in run[i].records
  {
    InvOverRuns(run, acts, indexed, i);
    assert id in run[i].records ==> Owed(run[i], id);
  }

  // ---------------------------------------------------------------- released too early

  /** The step finishes the row: an update by its executor, a canceller or an immediate submitter that the store
      accepts, or a restart. */
  predicate Finishes(s: State, a: Action, id: TaskId) {
    match a
    case Submitting(x, f) =>
      && f.FinishNow? && f.up && Terminal(f.verdict.status)
      && x in s.submitters && s.submitters[x].pc == Inserted(id) && s.submitters[x].immediate
    case Executing(i, w) =>
      && i == id && w.Mark? && w.up && Terminal(w.verdict.status)
      && id in s.execs && (s.execs[id].Working? || s.execs[id].Fallback?)
    case Cancelling(c, k) =>
      && k.Stop? && k.up && Terminal(k.verdict.status)
      && c in s.cancels && !s.cancels[c].marked && s.cancels[c].id == id
    case Prune(_) => false
    case Restart(_, _) => true
  }

  lemma SubmitterFinishes(s: State, x: SubmitterId, f: Front, indexed: bool, id: TaskId)
    requires Inv(s) && id in s.creator
    ensures Live(NextSubmitter(s, x, f, indexed).rows, id) <==>
      Live(s.rows, id) && !Finishes(s, Submitting(x, f), id)
  {
    if x in s.submitters {
      var u := s.submitters[x];
      if f.FinishNow? && u.pc.Inserted? && Terminal(f.verdict.status) {
        MarkRowsFades(s, u.pc.id, f.verdict, f.up);
      } else if Creates(s, Submitting(x, f), indexed) {
        assert NextSubmitter(s, x, f, indexed) == DoCreate(s, x, f.id, true, indexed);
      } else if !f.FinishNow? {
        SameRows(s, x, f, indexed);
      }
    }
  }

  lemma ExecFinishes(s: State, i: TaskId, w: Work, id: TaskId)
    ensures Live(NextExec(s, i, w).rows, id) <==> Live(s.rows, id) && !Finishes(s, Executing(i, w), id)
  {
    if w.Mark? && Terminal(w.verdict.status) {
      MarkRowsFades(s, i, w.verdict, w.up);
    } else if w.Dispatch? {
      AliveFinishesNone(s, i, MarkDispatched(i), w.up, id);
    } else if w.Run? {
      AliveFinishesNone(s, i, MarkRunning(i, w.command), w.up, id);
    }
  }

  lemma AliveFinishesNone(s: State, i: TaskId, st: Statement, up: bool, id: TaskId)
    requires st.MarkDispatched? || st.MarkRunning?
    ensures Live(DoMarkAlive(s, i, st, up).rows, id) <==> Live(s.rows, id)
  {
  }

  lemma CancelFinishes(s: State, c: CancelId, k: Cut, id: TaskId)
    ensures Live(NextCancel(s, c, k).rows, id) <==> Live(s.rows, id) && !Finishes(s, Cancelling(c, k), id)
  {
    if c in s.cancels && k.Stop? && Terminal(k.verdict.status) {
      MarkRowsFades(s, s.cancels[c].id, k.verdict, k.up);
    }
  }

  /** A row that exists is live after a step if and only if it was before and the step does not finish it. */
  lemma LiveAfterIff(s: State, a: Action, indexed: bool, id: TaskId)
    requires Inv(s) && id in s.creator
    ensures id in Next(s, a, indexed).creator
    ensures Live(Next(s, a, indexed).rows, id) <==> Live(s.rows, id) && !Finishes(s, a, id)
  {
    CreatorsStay(s, a, indexed, id);
    match a
    case Submitting(x, f) => SubmitterFinishes(s, x, f, indexed, id);
    case Executing(i, w) => ExecFinishes(s, i, w, id);
    case Cancelling(c, k) => CancelFinishes(s, c, k, id);
    case Prune(now) =>
    case Restart(now, retention) =>
  }

  lemma CreatorsStay(s: State, a: Action, indexed: bool, id: TaskId)
    requires id in s.creator
    ensures id in Next(s, a, indexed).creator
  {
    match a
    case Submitting(x, f) => SubmitterGrows(s, x, f, indexed);
    case Executing(i, w) => ExecLoses(s, i, w);
    case Cancelling(c, k) => CancelLoses(s, c, k);
    case Prune(now) =>
    case Restart(now, retention) =>
  }

  /** From a state in which the row is live, it stays live exactly as long as no step finishes it. */
  lemma {:induction false} LiveOverRunsIff(run: seq<State>, acts: seq<Action>, indexed: bool,
                                           i: nat, k: nat, id: TaskId)
    requires IsRun(run, acts, indexed) && i <= k < |run| && Live(run[i].rows, id)
    ensures id in run[k].creator
    ensures Live(run[k].rows, id) <==> forall j | i <= j < k :: !Finishes(run[j], acts[j], id)
    decreases k
  {
    if k == i {
      InvOverRuns(run, acts, indexed, i);
    } else {
      LiveOverRunsIff(run, acts, indexed, i, k - 1, id);
      InvOverRuns(run, acts, indexed, k - 1);
      assert run[k - 1 + 1] == Next(run[k - 1], acts[k - 1], indexed);
      LiveAfterIff(run[k - 1], acts[k - 1], indexed, id);
    }
  }

  /** The two steps that release waiters. */
  lemma OnlyCompletionReleases(s: State, a: Action, indexed: bool, id: TaskId)
    requires id in s.records && id !in Next(s, a, indexed).records && !a.Restart?
    ensures (a.Executing? && a.work.Complete?) || (a.Cancelling? && a.cut.Close?)
    ensures id in Next(s, a, indexed).closed && Next(s, a, indexed).rows == s.rows
  {
    match a
    case Submitting(x, f) => SubmitterGrows(s, x, f, indexed);
    case Executing(i, w) => ExecReleases(s, i, w, id);
    case Cancelling(c, k) => CancelReleases(s, c, k, id);
    case Prune(now) =>
  }

  lemma ExecReleases(s: State, i: TaskId, w: Work, id: TaskId)
    requires id in s.records
    ensures var t := NextExec(s, i, w); id !in t.records ==> w.Complete? && id in t.closed && t.rows == s.rows
  {
    if w.Mark? && Terminal(w.verdict.status) {
      MarkRowsFades(s, i, w.verdict, w.up);
    } else if w.Dispatch? {
      AliveReleasesNone(s, i, MarkDispatched(i), w.up);
    } else if w.Run? {
      AliveReleasesNone(s, i, MarkRunning(i, w.command), w.up);
    }
  }

  lemma AliveReleasesNone(s: State, i: TaskId, st: Statement, up: bool)
    requires st.MarkDispatched? || st.MarkRunning?
    ensures DoMarkAlive(s, i, st, up).records == s.records
  {
  }

  lemma CancelReleases(s: State, c: CancelId, k: Cut, id: TaskId)
    requires id in s.records
    ensures var t := NextCancel(s, c, k); id !in t.records ==> k.Close? && id in t.closed && t.rows == s.rows
  {
  }

  /** Whoever releases the waiters of a task, executor or canceller, and whatever the others did in between: they find
      the row still live if and only if no update that was to finish it has succeeded. */
  lemma ReleasedTooEarlyIff(run: seq<State>, acts: seq<Action>, indexed: bool, i: nat, k: nat, id: TaskId)
    requires IsRun(run, acts, indexed) && i <= k < |acts| && Live(run[i].rows, id)
    requires id in run[k].records && id !in run[k + 1].records && !acts[k].Restart?
    ensures id in run[k + 1].closed
    ensures Live(run[k + 1].rows, id) <==> forall j | i <= j < k :: !Finishes(run[j], acts[j], id)
  {
    assert run[k + 1] == Next(run[k], acts[k], indexed);
    OnlyCompletionReleases(run[k], acts[k], indexed, id);
    LiveOverRunsIff(run, acts, indexed, i, k, id);
  }

  /** So it does happen: a goroutine at work that finishes its task releases the waiters either way, and they find
      the row live exactly when the update failed. */
  lemma FinishReleasesAnyway(s: State, id: TaskId, v: Verdict, up: bool)
    requires Inv(s) && id in s.execs && s.execs[id].Working? && id in s.records && Live(s.rows, id)
    requires Terminal(v.status)
    ensures
      var t := NextExec(NextExec(s, id, Mark(v, up)), id, Complete);
      id in t.closed && id !in t.records && (Live(t.rows, id) <==> !up)
  {
    MarkRowsFades(s, id, v, up);
    var m := NextExec(s, id, Mark(v, up));
    assert m == SetExec(MarkRows(s, id, v, up), id, Marked(!up));
    assert NextExec(m, id, Complete) == SetExec(Deregister(m, id), id, if !up then Fallback else Ended);
  }

  /** And likewise for a canceller. */
  lemma CancelReleasesAnyway(s: State, c: CancelId, v: Verdict, up: bool)
    requires Inv(s) && c in s.cancels && !s.cancels[c].marked && Terminal(v.status)
    requires s.cancels[c].id in s.records && Live(s.rows, s.cancels[c].id)
    ensures
      var (id, t) := (s.cancels[c].id, NextCancel(NextCancel(s, c, Stop(v, up)), c, Close));
      id in t.closed && id !in t.records && (Live(t.rows, id) <==> !up)
  {
    var id := s.cancels[c].id;
    MarkRowsFades(s, id, v, up);
    var m := NextCancel(s, c, Stop(v, up));
    assert m == MarkRows(s, id, v, up).(cancels := s.cancels[c := Cancel(id, true)]);
    assert NextCancel(m, c, Close) == Deregister(m, id).(cancels := m.cancels - {c});
  }
}
