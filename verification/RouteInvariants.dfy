/** What every critical section of the route table keeps, over any sequence of them, with store calls
    failing at will and the process crashing anywhere. */
module RouteInvariants {
  import opened Common
  import opened RouteModel

  // ---------------------------------------------------------------- operations as data

  datatype Op =
    | DoReserve(s: SessionId, n: NodeId, now: Instant)
    | DoClaim(s: SessionId, now: Instant)
    | DoConfirm(s: SessionId, n: NodeId, id: nat, now: Instant)
    | DoCommit(s: SessionId, n: NodeId, id: nat, lease: nat, now: Instant, up: bool)
    | DoRelease(s: SessionId, n: NodeId, id: nat)
    | DoClear(s: SessionId, expected: Option<NodeId>, up: bool)
    | DoSnapshot(s: SessionId, now: Instant, up: bool)
    | DoDeleteByNode(n: NodeId, up: bool)
    | DoPrune(now: Instant, ttl: nat, up: bool)
    | DoSweep(now: Instant, up: bool)
    | DoMark(n: NodeId)
    | DoBegin(n: NodeId, now: Instant, ttl: nat, up: bool)
    | DoReport(n: NodeId, candidates: map<SessionId, nat>, results: map<SessionId, RecoveryStatus>,
               now: Instant, up: bool)

  /** A report reaches the table only once it covers its candidates (see RecoveryReport). */
  predicate WellFormed(op: Op) { op.DoReport? ==> op.candidates.Keys <= op.results.Keys }

  function Apply(t: Table, op: Op): Table
    requires WellFormed(op)
  {
    match op
    case DoReserve(s, n, now) => Reserve(t, s, n, now).0
    case DoClaim(s, now) => Claim(t, s, now).0
    case DoConfirm(s, n, id, now) => Confirm(t, s, n, id, now).0
    case DoCommit(s, n, id, lease, now, up) => Commit(t, s, n, id, lease, now, up).0
    case DoRelease(s, n, id) => Release(t, s, n, id).0
    case DoClear(s, expected, up) => Clear(t, s, expected, up).0
    case DoSnapshot(s, now, up) => Snapshot(t, s, now, up).0
    case DoDeleteByNode(n, up) => DeleteByNode(t, n, up)
    case DoPrune(now, ttl, up) => Prune(t, now, ttl, up)
    case DoSweep(now, up) => SweepExpired(t, now, up)
    case DoMark(n) => MarkUnavailable(t, n)
    case DoBegin(n, now, ttl, up) => BeginRecovery(t, n, now, ttl, up).0
    case DoReport(n, candidates, results, now, up) => ApplyResults(t, n, candidates, results, now, up).0
  }

  // ---------------------------------------------------------------- the invariant, session by session

  /** What the table holds about one session. */
  datatype Cell = Cell(route: Option<Route>, row: Option<Row>)

  function At(t: Table, s: SessionId): Cell {
    Cell(if s in t.routes then Some(t.routes[s]) else None, if s in t.rows then Some(t.rows[s]) else None)
  }

  /** Shape of one route: counted exactly while provisional, never leased before it is confirmed. */
  predicate RouteOk(r: Route, lastReservation: nat) {
    && (r.reservationId != 0 <==> r.uses >= 1)
    && (r.reservationId != 0 ==> r.lease == 0 && r.confirmedId == 0)
    && r.reservationId <= lastReservation
    && r.confirmedId <= lastReservation
  }

  /** A row and the route it mirrors agree on node, lease and creation time. */
  predicate Mirrors(r: Route, row: Row) {
    r.nodeId == row.nodeId && r.lease == row.lease > 0 && r.createdAt == row.createdAt > 0
  }

  /** A row exists only behind a route that mirrors it. */
  predicate CellOk(c: Cell, lastReservation: nat) {
    && (c.route.Some? ==> RouteOk(c.route.value, lastReservation))
    && (c.row.Some? ==> c.route.Some? && Mirrors(c.route.value, c.row.value))
  }

  /** The reservation id a route carries, provisional or confirmed; 0 if it has none. */
  function IdOf(r: Route): nat { if r.reservationId != 0 then r.reservationId else r.confirmedId }

  ghost predicate Inv(t: Table) {
    && (forall s :: CellOk(At(t, s), t.lastReservation))
    && (forall a, b | a in t.routes && b in t.routes && a != b && IdOf(t.routes[a]) != 0 ::
          IdOf(t.routes[a]) != IdOf(t.routes[b]))
  }

  const Empty := Table(map[], map[], 0)

  /** What a route keeps from one table to the next: its node and creation time stay, its lease does
      not shrink, once confirmed it stays confirmed, and it never takes over another reservation. */
  predicate Continues(before: Route, after: Route) {
    && after.nodeId == before.nodeId
    && after.lease >= before.lease
    && (before.createdAt > 0 ==> after.createdAt == before.createdAt)
    && (before.reservationId == 0 ==> after.reservationId == 0)
    && (IdOf(after) == IdOf(before) || IdOf(after) == 0)
  }

  /** How one session may change: it enters only under a reservation id never issued before, a row is
      lost only together with its route, and a row appears only for a session already in the table. */
  predicate CellStep(c: Cell, issued: nat, d: Cell, issued': nat) {
    && issued <= issued'
    && CellOk(d, issued')
    && (c.route.Some? && d.route.Some? ==> Continues(c.route.value, d.route.value))
    && (c.route.None? && d.route.Some? ==> d.route.value.reservationId == issued + 1)
    && (c.row.Some? && d.row.None? ==> d.route.None?)
    && (d.row.Some? ==> c.route.Some?)
  }

  ghost predicate Evolves(t: Table, u: Table) {
    forall s :: CellStep(At(t, s), t.lastReservation, At(u, s), u.lastReservation)
  }

  // ---------------------------------------------------------------- every operation keeps it

  lemma CommitStepsCell(t: Table, s: SessionId, n: NodeId, id: nat, lease: nat, now: Instant, up: bool,
                        other: SessionId)
    requires CellOk(At(t, other), t.lastReservation)
    ensures var u := Commit(t, s, n, id, lease, now, up).0;
      && CellStep(At(t, other), t.lastReservation, At(u, other), u.lastReservation)
      && (other in u.routes ==> other in t.routes)
  {
  }

  lemma BeginStepsCell(t: Table, n: NodeId, now: Instant, ttl: nat, up: bool, s: SessionId)
    requires CellOk(At(t, s), t.lastReservation)
    ensures var u := BeginRecovery(t, n, now, ttl, up).0;
      && CellStep(At(t, s), t.lastReservation, At(u, s), u.lastReservation)
      && (s in u.routes ==> s in t.routes)
  {
  }

  lemma ReportStepsCell(t: Table, n: NodeId, candidates: map<SessionId, nat>,
                        results: map<SessionId, RecoveryStatus>, now: Instant, up: bool, s: SessionId)
    requires candidates.Keys <= results.Keys && CellOk(At(t, s), t.lastReservation)
    ensures var u := ApplyResults(t, n, candidates, results, now, up).0;
      && CellStep(At(t, s), t.lastReservation, At(u, s), u.lastReservation)
      && (s in u.routes ==> s in t.routes)
  {
  }

  lemma NodeStepsCell(t: Table, op: Op, s: SessionId)
    requires op.DoDeleteByNode? || op.DoPrune? || op.DoSweep? || op.DoMark?
    requires CellOk(At(t, s), t.lastReservation)
    ensures var u := Apply(t, op);
      && CellStep(At(t, s), t.lastReservation, At(u, s), u.lastReservation)
      && (s in u.routes ==> s in t.routes)
  {
  }

  lemma HolderStepsCell(t: Table, op: Op, s: SessionId)
    requires op.DoReserve? || op.DoClaim? || op.DoConfirm? || op.DoRelease?
    requires CellOk(At(t, s), t.lastReservation)
    ensures var u := Apply(t, op);
      && CellStep(At(t, s), t.lastReservation, At(u, s), u.lastReservation)
      && (s in u.routes && s !in t.routes ==> op.DoReserve? && op.s == s)
  {
  }

  lemma OpStepsCell(t: Table, op: Op, s: SessionId)
    requires WellFormed(op) && CellOk(At(t, s), t.lastReservation)
    ensures CellStep(At(t, s), t.lastReservation, At(Apply(t, op), s), Apply(t, op).lastReservation)
    ensures s in Apply(t, op).routes && s !in t.routes ==> op.DoReserve? && op.s == s
  {
    match op
    case DoCommit(x, n, id, lease, now, up) => CommitStepsCell(t, x, n, id, lease, now, up, s);
    case DoBegin(n, now, ttl, up) => BeginStepsCell(t, n, now, ttl, up, s);
    case DoReport(n, candidates, results, now, up) => ReportStepsCell(t, n, candidates, results, now, up, s);
    case DoDeleteByNode(_, _) => NodeStepsCell(t, op, s);
    case DoPrune(_, _, _) => NodeStepsCell(t, op, s);
    case DoSweep(_, _) => NodeStepsCell(t, op, s);
    case DoMark(_) => NodeStepsCell(t, op, s);
    case DoClear(_, _, _) =>
    case DoSnapshot(_, _, _) =>
    case _ => HolderStepsCell(t, op, s);
  }

  lemma InvKept(t: Table, op: Op)
    requires Inv(t) && WellFormed(op)
    ensures Inv(Apply(t, op)) && Evolves(t, Apply(t, op))
  {
    var u := Apply(t, op);
    forall s
      ensures CellStep(At(t, s), t.lastReservation, At(u, s), u.lastReservation)
      ensures s in u.routes && s !in t.routes ==> op.DoReserve? && op.s == s
    {
      OpStepsCell(t, op, s);
    }
    forall a, b | a in u.routes && b in u.routes && a != b && IdOf(u.routes[a]) != 0
      ensures IdOf(u.routes[a]) != IdOf(u.routes[b])
    {
      assert CellStep(At(t, a), t.lastReservation, At(u, a), u.lastReservation);
      assert CellStep(At(t, b), t.lastReservation, At(u, b), u.lastReservation);
      assert CellOk(At(t, a), t.lastReservation) && CellOk(At(t, b), t.lastReservation);
    }
  }

  // ---------------------------------------------------------------- consequences of one step

  /** The upsert's node-conflict error cannot happen. */
  lemma CommitNeverConflicts(t: Table, s: SessionId, n: NodeId, id: nat, lease: nat, now: Instant, up: bool)
    requires Inv(t)
    ensures Commit(t, s, n, id, lease, now, up).1 != StoreConflict
  {
    assert CellOk(At(t, s), t.lastReservation);
  }

  /** The sessions whose rows an operation deletes are among those it drops from memory, which are the
      sessions whose preview routes it revokes; and a dropped session keeps no row. */
  lemma RowsLeaveWithRoutes(t: Table, op: Op)
    requires Inv(t) && WellFormed(op)
    ensures var u := Apply(t, op);
      && t.rows.Keys - u.rows.Keys <= t.routes.Keys - u.routes.Keys
      && (t.routes.Keys - u.routes.Keys) !! u.rows.Keys
  {
    InvKept(t, op);
    var u := Apply(t, op);
    forall s | s in t.rows && s !in u.rows ensures s in t.routes && s !in u.routes {
      assert CellStep(At(t, s), t.lastReservation, At(u, s), u.lastReservation);
      assert CellOk(At(t, s), t.lastReservation);
    }
    forall s | s in u.rows ensures s in u.routes {
      assert CellOk(At(u, s), u.lastReservation);
    }
  }

  /** Id r is carried by no route. */
  ghost predicate Retired(t: Table, r: nat) { forall s | s in t.routes :: IdOf(t.routes[s]) != r }

  /** A reservation id that has been issued and is carried by no route is never carried again. */
  lemma RetiredForGood(t: Table, op: Op, r: nat)
    requires Inv(t) && WellFormed(op) && 0 < r <= t.lastReservation && Retired(t, r)
    ensures Retired(Apply(t, op), r)
  {
    InvKept(t, op);
    var u := Apply(t, op);
    forall s | s in u.routes ensures IdOf(u.routes[s]) != r {
      assert CellStep(At(t, s), t.lastReservation, At(u, s), u.lastReservation);
    }
  }

  /** Confirm, commit and release under a retired id change nothing, whatever now stands at the session. */
  lemma RetiredIdIsInert(t: Table, s: SessionId, n: NodeId, r: nat, lease: nat, now: Instant, up: bool)
    requires Inv(t) && r != 0 && Retired(t, r)
    ensures Confirm(t, s, n, r, now) == (t, false)
    ensures Commit(t, s, n, r, lease, now, up) == (t, if lease == 0 then MissingLease else RouteChanged)
    ensures Release(t, s, n, r) == (t, NotOwned)
  {
    assert CellOk(At(t, s), t.lastReservation);
    assert s in t.routes ==> IdOf(t.routes[s]) != r;
  }

  /** The comment on confirm says a zero id may only refresh a confirmed route. The guard says otherwise:
      id 0 is accepted for every route on the node, provisional or not. */
  lemma ZeroIdAlwaysAccepted(t: Table, s: SessionId, n: NodeId)
    requires Inv(t)
    ensures Accepts(t, s, n, 0) <==> s in t.routes && t.routes[s].nodeId == n
  {
    assert CellOk(At(t, s), t.lastReservation);
  }

  /** So a commit under id 0 confirms a route that other dispatches still hold provisionally, and their
      own reservation id is retired by it. */
  lemma ZeroIdTakesOver(t: Table, s: SessionId, lease: nat, now: Instant)
    requires Inv(t) && s in t.routes && Provisional(t.routes[s]) && lease > 0
    ensures var (u, result) := Commit(t, s, t.routes[s].nodeId, 0, lease, now, true);
      && result == Committed
      && !Provisional(u.routes[s]) && s in u.rows
      && Retired(u, t.routes[s].reservationId)
  {
    assert CellOk(At(t, s), t.lastReservation);
    var id := t.routes[s].reservationId;
    forall x | x in t.routes && x != s ensures IdOf(t.routes[x]) != id {
      assert IdOf(t.routes[s]) == id;
    }
  }

  // ---------------------------------------------------------------- whole runs, with crashes

  /** CrashDuring loses the process after the store call of op and before its memory update. */
  datatype Event = Do(op: Op) | Crash(at: Instant) | CrashDuring(op: Op, at: Instant)

  predicate EventOk(e: Event) { e.Crash? || WellFormed(e.op) }

  function React(t: Table, e: Event): Table
    requires EventOk(e)
  {
    match e
    case Do(op) => Apply(t, op)
    case Crash(at) => Restore(t.rows, at)
    case CrashDuring(op, at) => Restore(Apply(t, op).rows, at)
  }

  predicate EventsOk(es: seq<Event>) { forall i | 0 <= i < |es| :: EventOk(es[i]) }

  /** The table after the events, oldest first. */
  function After(t: Table, es: seq<Event>): Table
    requires EventsOk(es)
    decreases |es|
  {
    if es == [] then t else After(React(t, es[0]), es[1..])
  }

  /** A restart rebuilds a part of the confirmed, leased routes: exactly those with a row and an open
      lease, each with its node, lease and creation time, and all of them unavailable. */
  ghost predicate RestoredFrom(t: Table, u: Table, at: Instant) {
    && u.routes.Keys == u.rows.Keys == (set s | s in t.rows && t.rows[s].lease > at)
    && (forall s | s in u.routes ::
          && s in t.routes
          && t.routes[s].reservationId == 0
          && u.routes[s].nodeId == t.routes[s].nodeId
          && u.routes[s].lease == t.routes[s].lease
          && u.routes[s].createdAt == t.routes[s].createdAt
          && u.routes[s].recovery == Unavailable
          && u.routes[s].reservationId == 0)
  }

  lemma RestoreRebuilds(t: Table, at: Instant)
    requires Inv(t)
    ensures Inv(Restore(t.rows, at))
    ensures RestoredFrom(t, Restore(t.rows, at), at)
  {
    var u := Restore(t.rows, at);
    forall s ensures CellOk(At(u, s), 0) {
      assert CellOk(At(t, s), t.lastReservation);
    }
    forall s | s in u.routes
      ensures s in t.routes && t.routes[s].reservationId == 0 && Mirrors(t.routes[s], t.rows[s])
    {
      assert CellOk(At(t, s), t.lastReservation);
    }
  }

  lemma ReactKeeps(t: Table, e: Event)
    requires Inv(t) && EventOk(e)
    ensures Inv(React(t, e))
  {
    match e
    case Do(op) => InvKept(t, op);
    case Crash(at) => RestoreRebuilds(t, at);
    case CrashDuring(op, at) => InvKept(t, op); RestoreRebuilds(Apply(t, op), at);
  }

  /** Cache and store agree after every run from a table in which they agree; EmptyInv gives the first one. */
  lemma {:induction false} AgreementOverRuns(t: Table, es: seq<Event>)
    requires Inv(t) && EventsOk(es)
    ensures Inv(After(t, es))
    decreases |es|
  {
    if es != [] {
      ReactKeeps(t, es[0]);
      AgreementOverRuns(React(t, es[0]), es[1..]);
    }
  }

  lemma EmptyInv()
    ensures Inv(Empty)
  {
  }

  /** Without a crash, as long as the session stays in the table, its node is constant and its lease
      never decreases: stated for the ends of a run in which the session is present at every step. */
  lemma {:induction false} BindingOverRuns(t: Table, ops: seq<Op>, s: SessionId)
    requires Inv(t) && (forall i | 0 <= i < |ops| :: WellFormed(ops[i]))
    requires Present(t, ops, s)
    ensures s in t.routes && s in Replay(t, ops).routes
    ensures Replay(t, ops).routes[s].nodeId == t.routes[s].nodeId
    ensures Replay(t, ops).routes[s].lease >= t.routes[s].lease
    ensures t.routes[s].reservationId == 0 ==> Replay(t, ops).routes[s].reservationId == 0
    decreases |ops|
  {
    if ops != [] {
      InvKept(t, ops[0]);
      assert CellStep(At(t, s), t.lastReservation, At(Apply(t, ops[0]), s), Apply(t, ops[0]).lastReservation);
      BindingOverRuns(Apply(t, ops[0]), ops[1..], s);
    }
  }

  function Replay(t: Table, ops: seq<Op>): Table
    requires forall i | 0 <= i < |ops| :: WellFormed(ops[i])
    decreases |ops|
  {
    if ops == [] then t else Replay(Apply(t, ops[0]), ops[1..])
  }

  predicate Present(t: Table, ops: seq<Op>, s: SessionId)
    requires forall i | 0 <= i < |ops| :: WellFormed(ops[i])
    decreases |ops|
  {
    s in t.routes && (ops == [] || Present(Apply(t, ops[0]), ops[1..], s))
  }

  /** An issued reservation id that no route carries is carried by none after any number of operations. */
  lemma {:induction false} RetiredOverRuns(t: Table, ops: seq<Op>, r: nat)
    requires Inv(t) && (forall i | 0 <= i < |ops| :: WellFormed(ops[i]))
    requires 0 < r <= t.lastReservation && Retired(t, r)
    ensures Retired(Replay(t, ops), r)
    decreases |ops|
  {
    if ops != [] {
      InvKept(t, ops[0]);
      RetiredForGood(t, ops[0], r);
      OnlyGrows(t, ops[0]);
      RetiredOverRuns(Apply(t, ops[0]), ops[1..], r);
    }
  }

  lemma OnlyGrows(t: Table, op: Op)
    requires WellFormed(op)
    ensures t.lastReservation <= Apply(t, op).lastReservation
  {
  }
}
