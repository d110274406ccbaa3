/** Preview routes and the terminal sessions they lead to.

    Two locks are involved. Every change of the route table runs under the table's lock: the rows go
    first (a foreign key takes the persisted preview routes of a deleted row with it), then the sessions
    leave memory and their preview routes are revoked one by one, each under the preview lock. Creating
    a preview route runs under the preview lock: the row insert checks the terminal row in its own
    transaction, then the route is published in memory. All the steps in between interleave. */
module PreviewProtocol {
  import opened RouteModel
  import RouteInvariants

  type Key(==, !new)

  datatype Preview = Preview(session: SessionId, worker: NodeId, createdAt: Instant, expiresAt: Instant)

  /** Creating holds the preview lock; Inserted: the row is written, the route not yet published. */
  datatype Creator = NoCreator | Creating | Inserted(key: Key, preview: Preview)

  /** A table operation whose store call is done: `after` is the table it ends in, `todo` the sessions
      still to be revoked. */
  datatype Busy = Idle | Working(after: Table, todo: set<SessionId>)

  datatype State = State(
    table: Table,
    busy: Busy,
    creator: Creator,
    previews: map<Key, Preview>,
    persisted: map<Key, Preview>)

  datatype Action =
    | StartOp(op: RouteInvariants.Op)
    | Revoke(s: SessionId)
    | FinishOp
    | LockCreate
    | Insert(key: Key, preview: Preview)
    | Publish
    | AbandonCreate
    | DropPreviews(keys: set<Key>)
    | ForgetPreviews(keys: set<Key>)
    | DropPersisted(keys: set<Key>)
    | Restart(at: Instant)

  /** The terminal rows as the database holds them now. */
  function Rows(s: State): map<SessionId, Row> {
    if s.busy.Working? then s.busy.after.rows else s.table.rows
  }

  /** The foreign key: the row of the session, at the preview's worker. */
  predicate Backed(p: Preview, rows: map<SessionId, Row>) {
    p.session in rows && rows[p.session].nodeId == p.worker
  }

  /** ON DELETE CASCADE. */
  function Cascade(persisted: map<Key, Preview>, rows: map<SessionId, Row>): map<Key, Preview> {
    map k | k in persisted && Backed(persisted[k], rows) :: persisted[k]
  }

  function NotOf(previews: map<Key, Preview>, s: SessionId): map<Key, Preview> {
    map k | k in previews && previews[k].session != s :: previews[k]
  }

  predicate Enabled(s: State, a: Action) {
    match a
    case StartOp(op) => s.busy.Idle? && RouteInvariants.WellFormed(op)
    case Revoke(x) => s.busy.Working? && x in s.busy.todo && s.creator.NoCreator?
    case FinishOp => s.busy.Working? && s.busy.todo == {}
    case LockCreate => s.creator.NoCreator?
    case Insert(_, _) => s.creator.Creating?
    case Publish => s.creator.Inserted?
    case AbandonCreate => s.creator.Creating?
    case DropPreviews(_) => s.creator.NoCreator?
    case ForgetPreviews(_) => s.creator.NoCreator?
    case DropPersisted(_) => true
    case Restart(_) => true
  }

  function Next(s: State, a: Action): State
    requires Enabled(s, a)
  {
    match a
    case StartOp(op) =>
      var after := RouteInvariants.Apply(s.table, op);
      s.(busy := Working(after, s.table.routes.Keys - after.routes.Keys), persisted := Cascade(s.persisted, after.rows))
    case Revoke(x) => s.(previews := NotOf(s.previews, x), busy := Working(s.busy.after, s.busy.todo - {x}))
    case FinishOp => s.(table := s.busy.after, busy := Idle)
    case LockCreate => s.(creator := Creating)
    case Insert(key, p) =>
      // A key already taken inserts nothing; the creator draws another one.
      if key in s.previews then s
      // The terminal row must exist, at that worker, with a lease beyond the creation time.
      else if !Backed(p, Rows(s)) || Rows(s)[p.session].lease <= p.createdAt then s.(creator := NoCreator)
      else if key in s.persisted then s
      else s.(creator := Inserted(key, p), persisted := s.persisted[key := p])
    case Publish => s.(previews := s.previews[s.creator.key := s.creator.preview], creator := NoCreator)
    case AbandonCreate => s.(creator := NoCreator)
    // deleteRoute: the row, then the memory entry.
    case DropPreviews(keys) => s.(previews := s.previews - keys, persisted := s.persisted - keys)
    // pruneLocked and RevokeOwnerRoutes: the memory entries alone.
    case ForgetPreviews(keys) => s.(previews := s.previews - keys)
    case DropPersisted(keys) => s.(persisted := s.persisted - keys)
    case Restart(at) =>
      var table := Restore(Rows(s), at);
      var kept := map k | k in s.persisted && s.persisted[k].expiresAt > at && Backed(s.persisted[k], table.rows) ::
          s.persisted[k];
      State(table, Idle, NoCreator, kept, kept)
  }

  const Boot := State(RouteInvariants.Empty, Idle, NoCreator, map[], map[])

  // ---------------------------------------------------------------- the invariant

  /** Backed by a row, or waiting to be revoked by the operation that deleted the row. */
  predicate Covered(s: State, p: Preview) {
    Backed(p, Rows(s)) || (s.busy.Working? && p.session in s.busy.todo)
  }

  ghost predicate Inv(s: State) {
    && RouteInvariants.Inv(s.table)
    && (s.busy.Working? ==> RouteInvariants.Inv(s.busy.after))
    && (forall k | k in s.persisted :: Backed(s.persisted[k], Rows(s)))
    && (forall k | k in s.previews :: Covered(s, s.previews[k]))
    && (s.creator.Inserted? ==> Covered(s, s.creator.preview))
  }

  lemma BootInv()
    ensures Inv(Boot)
  {
    RouteInvariants.EmptyInv();
  }

  /** A backed preview stays backed through the store call of an operation, or its session is among those
      the operation goes on to revoke. */
  lemma StoreCallCovers(t: Table, op: RouteInvariants.Op, p: Preview)
    requires RouteInvariants.Inv(t) && RouteInvariants.WellFormed(op) && Backed(p, t.rows)
    ensures var u := RouteInvariants.Apply(t, op); Backed(p, u.rows) || p.session in t.routes.Keys - u.routes.Keys
  {
    RouteInvariants.InvKept(t, op);
    RouteInvariants.RowsLeaveWithRoutes(t, op);
    var u := RouteInvariants.Apply(t, op);
    assert RouteInvariants.CellOk(RouteInvariants.At(t, p.session), t.lastReservation);
    assert RouteInvariants.CellStep(RouteInvariants.At(t, p.session), t.lastReservation,
                                    RouteInvariants.At(u, p.session), u.lastReservation);
  }

  lemma StartOpKeeps(s: State, op: RouteInvariants.Op)
    requires Inv(s) && Enabled(s, StartOp(op))
    ensures Inv(Next(s, StartOp(op)))
  {
    RouteInvariants.InvKept(s.table, op);
    forall k | k in s.previews ensures Covered(Next(s, StartOp(op)), s.previews[k]) {
      StoreCallCovers(s.table, op, s.previews[k]);
    }
    if s.creator.Inserted? {
      StoreCallCovers(s.table, op, s.creator.preview);
    }
  }

  lemma RestartKeeps(s: State, at: Instant)
    requires Inv(s)
    ensures Inv(Next(s, Restart(at)))
  {
    RouteInvariants.RestoreRebuilds(if s.busy.Working? then s.busy.after else s.table, at);
  }

  lemma NextKeeps(s: State, a: Action)
    requires Inv(s) && Enabled(s, a)
    ensures Inv(Next(s, a))
  {
    match a
    case StartOp(op) => StartOpKeeps(s, op);
    case Restart(at) => RestartKeeps(s, at);
    case _ =>
  }

  ghost predicate IsRun(run: seq<State>, actions: seq<Action>) {
    && |run| == |actions| + 1 && run[0] == Boot
    && forall i | 0 <= i < |actions| :: Enabled(run[i], actions[i]) && run[i + 1] == Next(run[i], actions[i])
  }

  lemma {:induction false} InvOverRuns(run: seq<State>, actions: seq<Action>, i: nat)
    requires IsRun(run, actions) && i < |run|
    ensures Inv(run[i])
  {
    if i == 0 {
      BootInv();
    } else {
      InvOverRuns(run, actions, i - 1);
      assert run[i - 1 + 1] == Next(run[i - 1], actions[i - 1]);
      NextKeeps(run[i - 1], actions[i - 1]);
    }
  }

  /** No preview route outlives its session: whenever no table operation is in progress, every published
      preview route leads to a session that has a row and a route, both at the preview's worker. */
  lemma NoPreviewOutlivesSession(run: seq<State>, actions: seq<Action>, i: nat, k: Key)
    requires IsRun(run, actions) && i < |run| && run[i].busy.Idle? && k in run[i].previews
    ensures var (s, p) := (run[i], run[i].previews[k]);
      && p.session in s.table.rows && s.table.rows[p.session].nodeId == p.worker
      && p.session in s.table.routes && s.table.routes[p.session].nodeId == p.worker
  {
    InvOverRuns(run, actions, i);
    var s, p := run[i], run[i].previews[k];
    assert Covered(s, p);
    assert RouteInvariants.CellOk(RouteInvariants.At(s.table, p.session), s.table.lastReservation);
  }
}
