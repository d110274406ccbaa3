/** The terminal-session route table as a value, and what each critical section of the table does to it.

    A table is the in-memory map session -> route, the persisted rows behind it, and the counter
    that numbers reservations. The node -> sessions index is not part of the value: RouteTable shows
    that it is always the inverse of the map. Every function below is one lock region of
    terminal_session_routes.go; `storeUp` says whether the store call made inside it succeeds, and a
    failing store call has no effect. */
module RouteModel {
  import opened Common

  type SessionId(==, !new)
  type NodeId(==, !new)

  /** Unix milliseconds. */
  type Instant = t: int | 0 < t witness 1

  datatype RecoveryState = Ready | Unavailable | Reconciling

  /** A route is provisional while reservationId is nonzero; lease 0 means "never leased". */
  datatype Route = Route(
    nodeId: NodeId,
    lastUsed: nat,
    lease: nat,
    createdAt: nat,
    recovery: RecoveryState,
    reservationId: nat,
    confirmedId: nat,
    uses: nat)

  datatype Row = Row(nodeId: NodeId, lease: nat, lastUsed: nat, createdAt: nat, updatedAt: nat)

  datatype Table = Table(
    routes: map<SessionId, Route>,
    rows: map<SessionId, Row>,
    lastReservation: nat)

  function Max(a: nat, b: nat): nat { if a < b then b else a }

  // ---------------------------------------------------------------- persisted rows

  datatype Upserted = Upserted(rows: map<SessionId, Row>) | NodeConflict

  /** INSERT .. ON CONFLICT DO UPDATE .. WHERE same node: a row never moves to another node, its
      times only grow, and its creation time is the one first inserted. */
  function UpsertRow(rows: map<SessionId, Row>, s: SessionId, row: Row): Upserted {
    if s !in rows then
      Upserted(rows[s := row])
    else if rows[s].nodeId != row.nodeId then
      NodeConflict
    else
      var was := rows[s];
      Upserted(rows[s := Row(was.nodeId,
                             Max(was.lease, row.lease),
                             Max(was.lastUsed, row.lastUsed),
                             was.createdAt,
                             Max(was.updatedAt, row.updatedAt))])
  }

  /** DELETE .. WHERE scoped_session_id IN sessions AND node_id = n. */
  function RowsWithout(rows: map<SessionId, Row>, sessions: set<SessionId>, n: NodeId): map<SessionId, Row> {
    map s | s in rows && !(s in sessions && rows[s].nodeId == n) :: rows[s]
  }

  /** DELETE .. WHERE node_id = n. */
  function RowsWithoutNode(rows: map<SessionId, Row>, n: NodeId): map<SessionId, Row> {
    map s | s in rows && rows[s].nodeId != n :: rows[s]
  }

  /** DELETE .. WHERE lease_expires_unix_ms <= now. */
  function LiveRows(rows: map<SessionId, Row>, now: Instant): map<SessionId, Row> {
    map s | s in rows && rows[s].lease > now :: rows[s]
  }

  // ---------------------------------------------------------------- reserve, claim

  predicate Provisional(r: Route) { r.reservationId != 0 }

  /** Refresh a route and, while it is provisional, share its reservation. */
  function Join(r: Route, now: Instant): Route {
    r.(lastUsed := now, uses := if Provisional(r) then r.uses + 1 else r.uses)
  }

  function FreshRoute(n: NodeId, id: nat, now: Instant): Route {
    Route(n, now, 0, 0, Ready, id, 0, 1)
  }

  datatype Grip = Grip(nodeId: NodeId, reservationId: nat)

  function Reserve(t: Table, s: SessionId, preferred: NodeId, now: Instant): (Table, Grip) {
    if s in t.routes then
      var r := Join(t.routes[s], now);
      (t.(routes := t.routes[s := r]), Grip(r.nodeId, r.reservationId))
    else
      var id := t.lastReservation + 1;
      (Table(t.routes[s := FreshRoute(preferred, id, now)], t.rows, id), Grip(preferred, id))
  }

  function Claim(t: Table, s: SessionId, now: Instant): (Table, Option<Grip>) {
    if s in t.routes then
      var r := Join(t.routes[s], now);
      (t.(routes := t.routes[s := r]), Some(Grip(r.nodeId, r.reservationId)))
    else
      (t, None)
  }

  // ---------------------------------------------------------------- confirm, commit, release

  /** The guard shared by confirm and commit. */
  predicate Accepts(t: Table, s: SessionId, n: NodeId, id: nat) {
    && s in t.routes
    && t.routes[s].nodeId == n
    && (t.routes[s].reservationId == id || t.routes[s].confirmedId == id)
  }

  function Confirm(t: Table, s: SessionId, n: NodeId, id: nat, now: Instant): (Table, bool) {
    if !Accepts(t, s, n, id) then
      (t, false)
    else
      var touched := t.routes[s].(lastUsed := now);
      var r := if id == 0 then touched else touched.(reservationId := 0, confirmedId := id, uses := 0);
      (t.(routes := t.routes[s := r]), true)
  }

  datatype CommitResult = Committed | RouteChanged | MissingLease | StoreFailed | StoreConflict

  function Commit(t: Table, s: SessionId, n: NodeId, id: nat, lease: nat, now: Instant, storeUp: bool)
    : (Table, CommitResult)
  {
    if lease == 0 then
      (t, MissingLease)
    else if !Accepts(t, s, n, id) then
      (t, RouteChanged)
    else
      var was := t.routes[s];
      var leased := was.(lease := Max(was.lease, lease),
                         createdAt := if was.createdAt == 0 then now else was.createdAt);
      if !storeUp then
        (t, StoreFailed)
      else
        match UpsertRow(t.rows, s, Row(n, leased.lease, now, leased.createdAt, now))
        case NodeConflict => (t, StoreConflict)
        case Upserted(rows) =>
          var r := leased.(lastUsed := now,
                           recovery := Ready,
                           reservationId := 0,
                           confirmedId := if id != 0 then id else leased.confirmedId,
                           uses := 0);
          (t.(routes := t.routes[s := r], rows := rows), Committed)
  }

  datatype ReleaseResult = NotOwned | StillInUse | Removed

  /** The guard of a release. */
  predicate Owns(t: Table, s: SessionId, n: NodeId, id: nat) {
    && id != 0
    && s in t.routes
    && t.routes[s].nodeId == n
    && t.routes[s].reservationId == id
  }

  function Release(t: Table, s: SessionId, n: NodeId, id: nat): (Table, ReleaseResult) {
    if !Owns(t, s, n, id) then
      (t, NotOwned)
    else if t.routes[s].uses > 1 then
      (t.(routes := t.routes[s := t.routes[s].(uses := t.routes[s].uses - 1)]), StillInUse)
    else
      (t.(routes := t.routes - {s}), Removed)
  }

  // ---------------------------------------------------------------- removal

  /** clearTerminalSessionRoute: drop a route, its row first. An absent or moved route is left alone. */
  function Clear(t: Table, s: SessionId, expected: Option<NodeId>, storeUp: bool): (Table, bool) {
    if s !in t.routes || (expected.Some? && t.routes[s].nodeId != expected.value) then
      (t, true)
    else if t.routes[s].lease > 0 && !storeUp then
      (t, false)
    else
      var r := t.routes[s];
      (t.(routes := t.routes - {s},
          rows := if r.lease > 0 then RowsWithout(t.rows, {s}, r.nodeId) else t.rows), true)
  }

  predicate Expired(r: Route, now: Instant) { 0 < r.lease <= now }

  /** terminalSessionRouteSnapshot: an expired route is removed and never returned. */
  function Snapshot(t: Table, s: SessionId, now: Instant, storeUp: bool): (Table, Option<Route>) {
    if s !in t.routes then
      (t, None)
    else if !Expired(t.routes[s], now) then
      (t, Some(t.routes[s]))
    else if !storeUp then
      (t, None)
    else
      (t.(routes := t.routes - {s}, rows := RowsWithout(t.rows, {s}, t.routes[s].nodeId)), None)
  }

  function DeleteByNode(t: Table, n: NodeId, storeUp: bool): Table {
    if !storeUp then
      t
    else
      t.(routes := map s | s in t.routes && t.routes[s].nodeId != n :: t.routes[s],
         rows := RowsWithoutNode(t.rows, n))
  }

  /** A route Prune drops: leased ones only when the store dropped its rows, others by idle time. */
  predicate Prunable(r: Route, now: Instant, ttl: nat, storeUp: bool) {
    if r.lease > 0 then r.lease <= now && storeUp else ttl > 0 && r.lastUsed <= now - ttl
  }

  function Prune(t: Table, now: Instant, ttl: nat, storeUp: bool): Table {
    t.(routes := map s | s in t.routes && !Prunable(t.routes[s], now, ttl, storeUp) :: t.routes[s],
       rows := if storeUp then LiveRows(t.rows, now) else t.rows)
  }

  /** The clean-up done by ListTerminalSessions: expired routes go, in one store transaction. */
  function SweepExpired(t: Table, now: Instant, storeUp: bool): Table {
    var expired := set s | s in t.routes && Expired(t.routes[s], now);
    if expired == {} || !storeUp then
      t
    else
      t.(routes := t.routes - expired,
         rows := map s | s in t.rows && !(s in expired && t.rows[s].nodeId == t.routes[s].nodeId) :: t.rows[s])
  }

  // ---------------------------------------------------------------- connection loss and recovery

  function MarkUnavailable(t: Table, n: NodeId): Table {
    t.(routes := map s | s in t.routes && !(t.routes[s].nodeId == n && Provisional(t.routes[s])) ::
         if t.routes[s].nodeId == n then t.routes[s].(recovery := Unavailable) else t.routes[s])
  }

  /** A confirmed route that was never leased is offered for recovery until its idle time is over. */
  function CandidateLease(r: Route, ttl: nat): nat {
    if r.lease == 0 && ttl > 0 then r.lastUsed + ttl else r.lease
  }

  predicate Recoverable(r: Route, n: NodeId, now: Instant, ttl: nat) {
    r.nodeId == n && !Provisional(r) && CandidateLease(r, ttl) > now
  }

  function Candidates(t: Table, n: NodeId, now: Instant, ttl: nat): map<SessionId, nat> {
    map s | s in t.routes && Recoverable(t.routes[s], n, now, ttl) :: CandidateLease(t.routes[s], ttl)
  }

  function Lapsed(t: Table, n: NodeId, now: Instant, ttl: nat): set<SessionId> {
    set s | s in t.routes && t.routes[s].nodeId == n && !Recoverable(t.routes[s], n, now, ttl) && t.routes[s].lease > 0
  }

  /** None when the store could not drop the lapsed rows; nothing changes then. */
  function BeginRecovery(t: Table, n: NodeId, now: Instant, ttl: nat, storeUp: bool)
    : (Table, Option<map<SessionId, nat>>)
  {
    var lapsed := Lapsed(t, n, now, ttl);
    if lapsed != {} && !storeUp then
      (t, None)
    else
      var routes := map s | s in t.routes && s !in lapsed ::
        if Recoverable(t.routes[s], n, now, ttl)
        then t.routes[s].(lease := CandidateLease(t.routes[s], ttl), recovery := Reconciling)
        else t.routes[s];
      (t.(routes := routes, rows := RowsWithout(t.rows, lapsed, n)), Some(Candidates(t, n, now, ttl)))
  }

  datatype RecoveryStatus = Recovered | Missing | Invalid

  /** Every candidate still in the table is bound to the reporting worker. */
  predicate StillOwned(t: Table, n: NodeId, candidates: map<SessionId, nat>) {
    forall s | s in candidates && s in t.routes :: t.routes[s].nodeId == n
  }

  /** A candidate that does not survive the report: not recovered, or its offered lease is over. */
  predicate Dropped(candidates: map<SessionId, nat>, results: map<SessionId, RecoveryStatus>, s: SessionId,
                    now: Instant)
    requires s in candidates && s in results
  {
    results[s] != Recovered || 0 < candidates[s] <= now
  }

  function Doomed(t: Table, candidates: map<SessionId, nat>, results: map<SessionId, RecoveryStatus>, now: Instant)
    : set<SessionId>
    requires candidates.Keys <= results.Keys
  {
    set s | s in t.routes && s in candidates && Dropped(candidates, results, s, now)
  }

  datatype ReportResult = Applied | NotOwner | ReportStoreFailed

  function ApplyResults(t: Table, n: NodeId, candidates: map<SessionId, nat>,
                        results: map<SessionId, RecoveryStatus>, now: Instant, storeUp: bool)
    : (Table, ReportResult)
    requires candidates.Keys <= results.Keys
  {
    if !StillOwned(t, n, candidates) then
      (t, NotOwner)
    else
      var doomed := Doomed(t, candidates, results, now);
      var leased := set s | s in doomed && t.routes[s].lease > 0;
      if leased != {} && !storeUp then
        (t, ReportStoreFailed)
      else
        var routes := map s | s in t.routes && s !in doomed ::
          if s in candidates then t.routes[s].(recovery := Ready, lastUsed := now) else t.routes[s];
        (t.(routes := routes, rows := RowsWithout(t.rows, leased, n)), Applied)
  }

  // ---------------------------------------------------------------- restart

  function RestoredRoute(row: Row): Route {
    Route(row.nodeId, row.lastUsed, row.lease, row.createdAt, Unavailable, 0, 0, 0)
  }

  /** What a new process builds from the rows the previous one left. */
  function Restore(rows: map<SessionId, Row>, now: Instant): Table {
    var live := LiveRows(rows, now);
    Table(map s | s in live :: RestoredRoute(live[s]), live, 0)
  }
}
