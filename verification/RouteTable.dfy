/** The route table as the program keeps it: two maps and a counter updated in place, over a store.

    Each method is proved against the function of the same name in RouteModel, so every loop that
    deletes while it walks the index ends in the declared table, the index is exactly the inverse of
    the session map after every call, and the preview routes of a session are revoked exactly when the
    session leaves the table. */
module RouteTable {
  import opened Common
  import opened RouteModel
  import opened RouteStore
  import RecoveryReport

  /** The index lists under each node exactly its sessions, and lists no node without one. */
  ghost predicate Inverse(routes: map<SessionId, Route>, index: map<NodeId, set<SessionId>>) {
    && (forall n | n in index :: index[n] != {})
    && (forall n, s | n in index && s in index[n] :: s in routes && routes[s].nodeId == n)
    && (forall s | s in routes :: routes[s].nodeId in index && s in index[routes[s].nodeId])
  }

  /** The sessions bound to a node, by definition rather than by the index. */
  function BoundTo(routes: map<SessionId, Route>, n: NodeId): set<SessionId> {
    set s | s in routes && routes[s].nodeId == n
  }

  /** MarkUnavailable under way: the node's sessions outside todo are done, and `lost` counts the
      sessions dropped so far. */
  ghost predicate Marking(before: map<SessionId, Route>, n: NodeId, todo: set<SessionId>,
                          routes: map<SessionId, Route>, lost: multiset<SessionId>)
  {
    && (forall s | s in todo :: s in before && before[s].nodeId == n)
    && (forall s :: s in routes <==> s in before && (s in todo || before[s].nodeId != n || !Provisional(before[s])))
    && (forall s | s in routes ::
          routes[s] == if s in todo || before[s].nodeId != n then before[s] else before[s].(recovery := Unavailable))
    && (forall s :: lost[s] == if s in before && s !in routes then 1 else 0)
  }

  lemma MarkingStarts(before: map<SessionId, Route>, n: NodeId)
    ensures Marking(before, n, BoundTo(before, n), before, multiset{})
  {
  }

  lemma MarkingStep(before: map<SessionId, Route>, n: NodeId, todo: set<SessionId>,
                    routes: map<SessionId, Route>, lost: multiset<SessionId>, s: SessionId)
    requires Marking(before, n, todo, routes, lost) && s in todo
    ensures s in routes
    ensures if Provisional(routes[s]) then Marking(before, n, todo - {s}, routes - {s}, lost + multiset{s})
            else Marking(before, n, todo - {s}, routes[s := routes[s].(recovery := Unavailable)], lost)
  {
  }

  lemma MarkingEnds(t: Table, n: NodeId, after: Table, lost: multiset<SessionId>)
    requires Marking(t.routes, n, {}, after.routes, lost)
    requires after.rows == t.rows && after.lastReservation == t.lastReservation
    ensures after == RouteModel.MarkUnavailable(t, n)
    ensures lost == multiset(t.routes.Keys - after.routes.Keys)
  {
    assert after.routes == RouteModel.MarkUnavailable(t, n).routes;
  }

  /** Prune under way: the sessions outside todo are done. */
  ghost predicate Pruning(before: map<SessionId, Route>, todo: set<SessionId>, now: Instant, ttl: nat, up: bool,
                          routes: map<SessionId, Route>, lost: multiset<SessionId>)
  {
    && todo <= before.Keys
    && (forall s :: s in routes <==> s in before && (s in todo || !Prunable(before[s], now, ttl, up)))
    && (forall s | s in routes :: routes[s] == before[s])
    && (forall s :: lost[s] == if s in before && s !in routes then 1 else 0)
  }

  lemma PruningStarts(before: map<SessionId, Route>, now: Instant, ttl: nat, up: bool)
    ensures Pruning(before, before.Keys, now, ttl, up, before, multiset{})
  {
  }

  lemma PruningStep(before: map<SessionId, Route>, todo: set<SessionId>, now: Instant, ttl: nat, up: bool,
                    routes: map<SessionId, Route>, lost: multiset<SessionId>, s: SessionId)
    requires Pruning(before, todo, now, ttl, up, routes, lost) && s in todo
    ensures s in routes && routes[s] == before[s]
    ensures if Prunable(before[s], now, ttl, up)
            then Pruning(before, todo - {s}, now, ttl, up, routes - {s}, lost + multiset{s})
            else Pruning(before, todo - {s}, now, ttl, up, routes, lost)
  {
  }

  lemma PruningEnds(t: Table, now: Instant, ttl: nat, up: bool, after: Table, lost: multiset<SessionId>)
    requires Pruning(t.routes, {}, now, ttl, up, after.routes, lost)
    requires after.rows == (if up then LiveRows(t.rows, now) else t.rows) && after.lastReservation == t.lastReservation
    ensures after == RouteModel.Prune(t, now, ttl, up)
    ensures lost == multiset(t.routes.Keys - after.routes.Keys)
  {
    assert after.routes == RouteModel.Prune(t, now, ttl, up).routes;
  }

  /** Removal of the routes named by a list of session-and-node references. */
  ghost predicate RefsGone(before: map<SessionId, Route>, refs: seq<Ref>, routes: map<SessionId, Route>,
                           lost: multiset<SessionId>)
  {
    && (forall s :: s in routes <==> s in before && Ref(s, before[s].nodeId) !in refs)
    && (forall s | s in routes :: routes[s] == before[s])
    && (forall s :: lost[s] == if s in before && s !in routes then 1 else 0)
  }

  lemma RefsGoneStep(before: map<SessionId, Route>, refs: seq<Ref>, routes: map<SessionId, Route>,
                     lost: multiset<SessionId>, ref: Ref)
    requires RefsGone(before, refs, routes, lost)
    ensures if ref.session in routes && routes[ref.session].nodeId == ref.nodeId
            then RefsGone(before, refs + [ref], routes - {ref.session}, lost + multiset{ref.session})
            else RefsGone(before, refs + [ref], routes, lost)
  {
    assert forall s | s in before :: Ref(s, before[s].nodeId) in refs + [ref] <==>
             Ref(s, before[s].nodeId) in refs || Ref(s, before[s].nodeId) == ref;
  }

  lemma LostIsDifference(before: map<SessionId, Route>, refs: seq<Ref>, routes: map<SessionId, Route>,
                         lost: multiset<SessionId>)
    requires RefsGone(before, refs, routes, lost)
    ensures lost == multiset(before.Keys - routes.Keys)
  {
  }

  lemma SweepEnds(t: Table, refs: seq<Ref>, now: Instant, up: bool, after: Table)
    requires forall ref :: ref in refs <==>
               ref.session in t.routes && t.routes[ref.session].nodeId == ref.nodeId &&
                   Expired(t.routes[ref.session], now)
    requires after.lastReservation == t.lastReservation
    requires if refs == [] || !up then after == t
             else after.rows == RowsAfter(t.rows, refs) && exists lost :: RefsGone(t.routes, refs, after.routes, lost)
    ensures after == RouteModel.SweepExpired(t, now, up)
  {
    var expired := set s | s in t.routes && Expired(t.routes[s], now);
    forall s | s in expired ensures Ref(s, t.routes[s].nodeId) in refs {}
    if refs != [] {
      assert refs[0] in refs && refs[0].session in expired;
    }
    if refs != [] && up {
      assert after.routes == t.routes - expired;
      forall s | s in t.rows
        ensures Untouched(t.rows, refs, s) <==> !(s in expired && t.rows[s].nodeId == t.routes[s].nodeId)
      {
        assert Untouched(t.rows, refs, s) <==> Ref(s, t.rows[s].nodeId) !in refs;
      }
      assert after.rows == RouteModel.SweepExpired(t, now, up).rows;
    }
  }

  /** BeginRecovery's second loop, done for the candidates in done. */
  ghost predicate Reconciled(before: map<SessionId, Route>, n: NodeId, candidates: map<SessionId, nat>,
                             done: set<SessionId>,
                             routes: map<SessionId, Route>)
  {
    && routes.Keys == before.Keys
    && (forall s | s in routes ::
          routes[s] == if s in candidates && s in done && before[s].nodeId == n
                       then before[s].(lease := candidates[s], recovery := Reconciling) else before[s])
  }

  lemma BeginEnds(t: Table, n: NodeId, now: Instant, ttl: nat, lapsed: seq<Ref>,
                  kept: map<SessionId, Route>, lost: multiset<SessionId>, after: Table)
    requires forall ref :: ref in lapsed <==> ref.nodeId == n && ref.session in Lapsed(t, n, now, ttl)
    requires RefsGone(t.routes, lapsed, kept, lost)
    requires var candidates := Candidates(t, n, now, ttl);
      Reconciled(kept, n, candidates, candidates.Keys, after.routes)
    requires after.rows == (if lapsed == [] then t.rows else RowsAfter(t.rows, lapsed))
    requires after.lastReservation == t.lastReservation
    ensures after == RouteModel.BeginRecovery(t, n, now, ttl, true).0
    ensures lapsed == [] ==> after == RouteModel.BeginRecovery(t, n, now, ttl, false).0
    ensures lapsed == [] <==> Lapsed(t, n, now, ttl) == {}
    ensures lost == multiset(t.routes.Keys - after.routes.Keys)
  {
    var gone := Lapsed(t, n, now, ttl);
    forall s | s in gone ensures Ref(s, n) in lapsed {}
    if lapsed != [] {
      assert lapsed[0] in lapsed && lapsed[0].session in gone;
    }
    RowsAfterOnNode(t.rows, lapsed, gone, n);
    assert after.rows == RowsWithout(t.rows, gone, n);
    assert after.routes == RouteModel.BeginRecovery(t, n, now, ttl, true).0.routes;
  }

  /** The report's last loop: the candidates outside todo are settled. */
  ghost predicate Settling(before: map<SessionId, Route>, candidates: map<SessionId, nat>,
                           results: map<SessionId, RecoveryStatus>,
                           now: Instant, todo: set<SessionId>, routes: map<SessionId, Route>, lost: multiset<SessionId>)
    requires candidates.Keys <= results.Keys
  {
    && (forall s :: s in routes <==>
          s in before && (s in todo || s !in candidates || !Dropped(candidates, results, s, now)))
    && (forall s | s in routes ::
          routes[s] ==
            if s in todo || s !in candidates then before[s] else before[s].(recovery := Ready, lastUsed := now))
    && (forall s :: lost[s] == if s in before && s !in routes then 1 else 0)
  }

  lemma SettlingStep(before: map<SessionId, Route>, candidates: map<SessionId, nat>,
                     results: map<SessionId, RecoveryStatus>,
                     now: Instant, todo: set<SessionId>, routes: map<SessionId, Route>, lost: multiset<SessionId>,
                     s: SessionId)
    requires candidates.Keys <= results.Keys && Settling(before, candidates, results, now, todo, routes, lost)
    requires s in todo && s in candidates
    ensures if s !in routes then Settling(before, candidates, results, now, todo - {s}, routes, lost)
            else if Dropped(candidates, results, s, now)
            then Settling(before, candidates, results, now, todo - {s}, routes - {s}, lost + multiset{s})
            else Settling(before, candidates, results, now, todo - {s},
                          routes[s := routes[s].(recovery := Ready, lastUsed := now)], lost)
  {
  }

  lemma SettleEnds(t: Table, n: NodeId, candidates: map<SessionId, nat>, results: map<SessionId, RecoveryStatus>,
                   now: Instant, up: bool,
                   refs: seq<Ref>, lost: multiset<SessionId>, after: Table)
    requires candidates.Keys <= results.Keys && StillOwned(t, n, candidates)
    requires forall ref :: ref in refs <==>
               ref.nodeId == n && ref.session in Doomed(t, candidates, results, now) && t.routes[ref.session].lease > 0
    requires Settling(t.routes, candidates, results, now, {}, after.routes, lost)
    requires after.rows == (if refs == [] then t.rows else RowsAfter(t.rows, refs))
    requires after.lastReservation == t.lastReservation
    requires refs == [] || up
    ensures (after, Applied) == ApplyResults(t, n, candidates, results, now, up)
    ensures lost == multiset(t.routes.Keys - after.routes.Keys)
  {
    var doomed := Doomed(t, candidates, results, now);
    var leased := set s | s in doomed && t.routes[s].lease > 0;
    forall s | s in leased ensures Ref(s, n) in refs {}
    if refs != [] {
      assert refs[0] in refs && refs[0].session in leased;
    }
    RowsAfterOnNode(t.rows, refs, leased, n);
    assert after.rows == RowsWithout(t.rows, leased, n);
    assert after.routes == ApplyResults(t, n, candidates, results, now, up).0.routes;
  }

  /** Restore under way: the first i listed rows are in. */
  ghost predicate Restoring(listed: seq<(SessionId, Row)>, i: nat, restored: map<SessionId, Route>) {
    && i <= |listed|
    && (forall j | 0 <= j < i :: listed[j].0 in restored && restored[listed[j].0] == RestoredRoute(listed[j].1))
    && (forall s | s in restored :: exists j | 0 <= j < i :: listed[j].0 == s)
  }

  lemma RestoringStep(listed: seq<(SessionId, Row)>, rows: map<SessionId, Row>, i: nat, restored: map<SessionId, Route>)
    requires Lists(listed, rows) && i < |listed| && Restoring(listed, i, restored)
    ensures listed[i].0 !in restored
    ensures Restoring(listed, i + 1, restored[listed[i].0 := RestoredRoute(listed[i].1)])
  {
    assert forall j | 0 <= j < i :: listed[j].0 != listed[i].0;
    assert listed[i].0 !in restored;
    var after := restored[listed[i].0 := RestoredRoute(listed[i].1)];
    forall s | s in after
      ensures exists j | 0 <= j < i + 1 :: listed[j].0 == s
    {
      if s != listed[i].0 {
        var j :| 0 <= j < i && listed[j].0 == s;
      }
    }
  }

  lemma IndexedOneMore(routes: map<SessionId, Route>, index: map<NodeId, set<SessionId>>, s: SessionId, r: Route)
    requires Inverse(routes, index) && s !in routes
    ensures Inverse(routes[s := r],
                    index[r.nodeId := (if r.nodeId in index then index[r.nodeId] else {}) + {s}])
  {
  }

  /** The loop over the persisted rows. Its checks never fire: the store lists each session once, and live ones only. */
  method Rebuild(persisted: seq<(SessionId, Row)>, ghost rows: map<SessionId, Row>, now: Instant)
    returns (ok: bool, restored: map<SessionId, Route>, byNode: map<NodeId, set<SessionId>>)
    requires Lists(persisted, rows) && forall s | s in rows :: rows[s].lease > now
    ensures ok && Inverse(restored, byNode) && Restoring(persisted, |persisted|, restored)
  {
    restored, byNode := map[], map[];
    for i := 0 to |persisted|
      invariant Inverse(restored, byNode) && Restoring(persisted, i, restored)
    {
      var s, row := persisted[i].0, persisted[i].1;
      RestoringStep(persisted, rows, i, restored);
      if row.lease <= now || s in restored {
        return false, restored, byNode;
      }
      var r := Route(row.nodeId, row.lastUsed, row.lease, row.createdAt, Unavailable, 0, 0, 0);
      IndexedOneMore(restored, byNode, s, r);
      restored := restored[s := r];
      byNode := byNode[row.nodeId := (if row.nodeId in byNode then byNode[row.nodeId] else {}) + {s}];
    }
    return true, restored, byNode;
  }

  lemma RestoreEnds(rows: map<SessionId, Row>, now: Instant, listed: seq<(SessionId, Row)>,
                    restored: map<SessionId, Route>)
    requires Lists(listed, LiveRows(LiveRows(rows, now), now)) && Restoring(listed, |listed|, restored)
    ensures restored == RouteModel.Restore(rows, now).routes
  {
    var live := LiveRows(rows, now);
    assert LiveRows(live, now) == live;
    forall s | s in live ensures s in restored && restored[s] == RestoredRoute(live[s]) {
      assert (s, live[s]) in listed;
      var j :| 0 <= j < |listed| && listed[j] == (s, live[s]);
    }
    forall s | s in restored ensures s in live {
      var j :| 0 <= j < |listed| && listed[j].0 == s;
    }
  }

  /** Dropping the sessions bound to a node is what DeleteByNode does to the routes. */
  lemma NodeDropped(t: Table, n: NodeId, routes: map<SessionId, Route>)
    requires routes == t.routes - BoundTo(t.routes, n)
    ensures routes == RouteModel.DeleteByNode(t, n, true).routes
    ensures t.routes.Keys - routes.Keys == BoundTo(t.routes, n)
  {
  }

  lemma EmptyIndex(routes: map<SessionId, Route>, index: map<NodeId, set<SessionId>>)
    requires Inverse(routes, index)
    ensures routes == map[] <==> index == map[]
  {
    if index != map[] {
      var n :| n in index;
      var s :| s in index[n];
      assert s in routes;
    }
    if routes != map[] {
      var s :| s in routes;
      assert routes[s].nodeId in index;
    }
  }

  class Routes {
    const ttl: nat
    const store: Store
    var routes: map<SessionId, Route>
    var index: map<NodeId, set<SessionId>>
    var lastReservation: nat
    /** Calls made to the preview-route revoker, with repetition. */
    var revoked: multiset<SessionId>

    constructor (store: Store, ttl: nat)
      ensures Valid() && this.store == store && this.ttl == ttl
      ensures Value() == Table(map[], store.rows, 0)
    {
      this.store := store;
      this.ttl := ttl;
      routes, index, lastReservation, revoked := map[], map[], 0, multiset{};
    }

    ghost predicate Valid()
      reads this
    {
      Inverse(routes, index)
    }

    function Value(): Table
      reads this, store
    {
      Table(routes, store.rows, lastReservation)
    }

    /** The index gives the sessions of a node. */
    function Sessions(n: NodeId): (sessions: set<SessionId>)
      reads this
      requires Valid()
      ensures sessions == BoundTo(routes, n)
    {
      if n in index then index[n] else {}
    }

    // -------------------------------------------------------------- inserting and removing one route

    method Insert(s: SessionId, r: Route)
      requires Valid() && s !in routes
      modifies this`routes, this`index
      ensures Valid() && routes == old(routes)[s := r]
    {
      routes := routes[s := r];
      var sessions := if r.nodeId in index then index[r.nodeId] else {};
      index := index[r.nodeId := sessions + {s}];
    }

    method Remove(s: SessionId, r: Route)
      requires Valid() && s in routes && routes[s] == r
      modifies this`routes, this`index, this`revoked
      ensures Valid() && routes == old(routes) - {s}
      ensures revoked == old(revoked) + multiset{s}
    {
      routes := routes - {s};
      revoked := revoked + multiset{s};
      var sessions := index[r.nodeId] - {s};
      if sessions == {} {
        index := index - {r.nodeId};
      } else {
        index := index[r.nodeId := sessions];
      }
    }

    method Update(s: SessionId, r: Route)
      requires Valid() && s in routes && routes[s].nodeId == r.nodeId
      modifies this`routes
      ensures Valid() && routes == old(routes)[s := r]
    {
      routes := routes[s := r];
    }

    // -------------------------------------------------------------- one session

    method Reserve(s: SessionId, preferred: NodeId, now: Instant) returns (grip: Grip)
      requires Valid()
      modifies this`routes, this`index, this`lastReservation
      ensures Valid()
      ensures (Value(), grip) == RouteModel.Reserve(old(Value()), s, preferred, now)
    {
      if s in routes {
        var r := routes[s].(lastUsed := now);
        var id := 0;
        if r.reservationId != 0 {
          r := r.(uses := r.uses + 1);
          id := r.reservationId;
        }
        Update(s, r);
        return Grip(r.nodeId, id);
      }
      lastReservation := lastReservation + 1;
      Insert(s, Route(preferred, now, 0, 0, Ready, lastReservation, 0, 1));
      return Grip(preferred, lastReservation);
    }

    method Claim(s: SessionId, now: Instant) returns (grip: Option<Grip>)
      requires Valid()
      modifies this`routes
      ensures Valid()
      ensures (Value(), grip) == RouteModel.Claim(old(Value()), s, now)
    {
      if s !in routes {
        return None;
      }
      var r := routes[s].(lastUsed := now);
      var id := 0;
      if r.reservationId != 0 {
        r := r.(uses := r.uses + 1);
        id := r.reservationId;
      }
      Update(s, r);
      return Some(Grip(r.nodeId, id));
    }

    method Confirm(s: SessionId, n: NodeId, id: nat, now: Instant) returns (ok: bool)
      requires Valid()
      modifies this`routes
      ensures Valid()
      ensures (Value(), ok) == RouteModel.Confirm(old(Value()), s, n, id, now)
    {
      if s !in routes || routes[s].nodeId != n || (routes[s].reservationId != id && routes[s].confirmedId != id) {
        return false;
      }
      var r := routes[s].(lastUsed := now);
      if id != 0 {
        r := r.(reservationId := 0, confirmedId := id, uses := 0);
      }
      Update(s, r);
      return true;
    }

    /** Store first: the route in memory changes only after its row was written. */
    method Commit(s: SessionId, n: NodeId, id: nat, lease: nat, now: Instant, up: bool) returns (result: CommitResult)
      requires Valid()
      modifies this`routes, store
      ensures Valid()
      ensures (Value(), result) == RouteModel.Commit(old(Value()), s, n, id, lease, now, up)
    {
      if lease == 0 {
        return MissingLease;
      }
      if s !in routes || routes[s].nodeId != n || (routes[s].reservationId != id && routes[s].confirmedId != id) {
        return RouteChanged;
      }
      var r := routes[s];
      if r.lease < lease {
        r := r.(lease := lease);
      }
      if r.createdAt == 0 {
        r := r.(createdAt := now);
      }
      result := store.Upsert(s, Row(n, r.lease, now, r.createdAt, now), up);
      if result != Committed {
        return;
      }
      r := r.(lastUsed := now, recovery := Ready, reservationId := 0, uses := 0);
      if id != 0 {
        r := r.(confirmedId := id);
      }
      Update(s, r);
    }

    method Release(s: SessionId, n: NodeId, id: nat) returns (result: ReleaseResult)
      requires Valid()
      modifies this`routes, this`index, this`revoked
      ensures Valid()
      ensures (Value(), result) == RouteModel.Release(old(Value()), s, n, id)
      ensures revoked == old(revoked) + multiset(old(routes).Keys - routes.Keys)
    {
      if id == 0 || s !in routes || routes[s].nodeId != n || routes[s].reservationId != id {
        return NotOwned;
      }
      var r := routes[s];
      if r.uses > 1 {
        Update(s, r.(uses := r.uses - 1));
        return StillInUse;
      }
      Remove(s, r);
      assert old(routes).Keys - routes.Keys == {s};
      return RouteModel.Removed;
    }

    method Clear(s: SessionId, expected: Option<NodeId>, up: bool) returns (ok: bool)
      requires Valid()
      modifies this`routes, this`index, this`revoked, store
      ensures Valid()
      ensures (Value(), ok) == RouteModel.Clear(old(Value()), s, expected, up)
      ensures revoked == old(revoked) + multiset(old(routes).Keys - routes.Keys)
    {
      if s !in routes || (expected.Some? && routes[s].nodeId != expected.value) {
        return true;
      }
      var r := routes[s];
      if r.lease > 0 {
        var deleted := store.Delete(s, r.nodeId, up);
        if !deleted {
          return false;
        }
      }
      Remove(s, r);
      assert old(routes).Keys - routes.Keys == {s};
      return true;
    }

    method Snapshot(s: SessionId, now: Instant, up: bool) returns (route: Option<Route>)
      requires Valid()
      modifies this`routes, this`index, this`revoked, store
      ensures Valid()
      ensures (Value(), route) == RouteModel.Snapshot(old(Value()), s, now, up)
      ensures revoked == old(revoked) + multiset(old(routes).Keys - routes.Keys)
    {
      if s !in routes {
        return None;
      }
      var r := routes[s];
      if r.lease > 0 && r.lease <= now {
        var deleted := store.Delete(s, r.nodeId, up);
        if !deleted {
          return None;
        }
        Remove(s, r);
        assert old(routes).Keys - routes.Keys == {s};
        return None;
      }
      return Some(r);
    }

    // -------------------------------------------------------------- all sessions of a set

    /** Drop every listed session, one at a time. */
    method RemoveAll(doomed: set<SessionId>)
      requires Valid() && doomed <= routes.Keys
      modifies this`routes, this`index, this`revoked
      ensures Valid() && routes == old(routes) - doomed
      ensures revoked == old(revoked) + multiset(doomed)
    {
      var todo := doomed;
      while todo != {}
        invariant Valid()
        invariant todo <= doomed && routes == old(routes) - (doomed - todo)
        invariant revoked + multiset(todo) == old(revoked) + multiset(doomed)
      {
        var s :| s in todo;
        Remove(s, routes[s]);
        assert multiset(todo) == multiset(todo - {s}) + multiset{s};
        todo := todo - {s};
      }
    }

    method MarkOne(s: SessionId)
      requires Valid() && s in routes
      modifies this`routes, this`index, this`revoked
      ensures Valid()
      ensures routes == if Provisional(old(routes)[s]) then old(routes) - {s}
                        else old(routes)[s := old(routes)[s].(recovery := Unavailable)]
      ensures revoked == old(revoked) + if Provisional(old(routes)[s]) then multiset{s} else multiset{}
    {
      var r := routes[s];
      if r.reservationId != 0 {
        Remove(s, r);
      } else {
        Update(s, r.(recovery := Unavailable));
      }
    }

    /** The loop deletes a node's provisional routes from the very index set it walks. */
    method MarkUnavailable(n: NodeId)
      requires Valid()
      modifies this`routes, this`index, this`revoked
      ensures Valid()
      ensures Value() == RouteModel.MarkUnavailable(old(Value()), n)
      ensures revoked == old(revoked) + multiset(old(routes).Keys - routes.Keys)
    {
      ghost var before, lost: multiset<SessionId> := Value(), multiset{};
      var todo := Sessions(n);
      MarkingStarts(before.routes, n);
      while todo != {}
        invariant Valid()
        invariant Marking(before.routes, n, todo, routes, lost)
        invariant revoked == old(revoked) + lost
      {
        var s :| s in todo;
        MarkingStep(before.routes, n, todo, routes, lost, s);
        if Provisional(routes[s]) {
          lost := lost + multiset{s};
        }
        MarkOne(s);
        todo := todo - {s};
      }
      MarkingEnds(before, n, Value(), lost);
    }

    method DeleteByNode(n: NodeId, up: bool) returns (removed: Option<nat>)
      requires Valid()
      modifies this`routes, this`index, this`revoked, store
      ensures Valid()
      ensures Value() == RouteModel.DeleteByNode(old(Value()), n, up)
      ensures removed == if up then Some(|BoundTo(old(routes), n)|) else None
      ensures revoked == old(revoked) + multiset(old(routes).Keys - routes.Keys)
    {
      var deleted := store.DeleteByNode(n, up);
      if !deleted {
        return None;
      }
      var doomed := Sessions(n);
      RemoveAll(doomed);
      NodeDropped(old(Value()), n, routes);
      return Some(|doomed|);
    }

    method Prune(now: Instant, up: bool)
      requires Valid()
      modifies this`routes, this`index, this`revoked, store
      ensures Valid()
      ensures Value() == RouteModel.Prune(old(Value()), now, ttl, up)
      ensures revoked == old(revoked) + multiset(old(routes).Keys - routes.Keys)
    {
      ghost var before, lost: multiset<SessionId> := Value(), multiset{};
      var deleted := store.DeleteExpired(now, up);
      var todo := routes.Keys;
      PruningStarts(routes, now, ttl, up);
      while todo != {}
        invariant Valid()
        invariant Pruning(before.routes, todo, now, ttl, up, routes, lost)
        invariant revoked == old(revoked) + lost
        modifies this`routes, this`index, this`revoked
      {
        var s :| s in todo;
        PruningStep(before.routes, todo, now, ttl, up, routes, lost, s);
        var r := routes[s];
        todo := todo - {s};
        if r.lease > 0 {
          if r.lease > now || !deleted {
            continue;
          }
        } else if ttl <= 0 || r.lastUsed > now - ttl {
          continue;
        }
        Remove(s, r);
        lost := lost + multiset{s};
      }
      PruningEnds(before, now, ttl, up, Value(), lost);
    }

    /** A reference whose route moved or left in the meantime is skipped. */
    method RemoveRefs(refs: seq<Ref>) returns (ghost lost: multiset<SessionId>)
      requires Valid()
      modifies this`routes, this`index, this`revoked
      ensures Valid()
      ensures RefsGone(old(routes), refs, routes, lost)
      ensures revoked == old(revoked) + lost
    {
      lost := multiset{};
      for i := 0 to |refs|
        invariant Valid()
        invariant RefsGone(old(routes), refs[..i], routes, lost)
        invariant revoked == old(revoked) + lost
      {
        assert refs[..i + 1] == refs[..i] + [refs[i]];
        RefsGoneStep(old(routes), refs[..i], routes, lost, refs[i]);
        var ref := refs[i];
        if ref.session in routes && routes[ref.session].nodeId == ref.nodeId {
          Remove(ref.session, routes[ref.session]);
          lost := lost + multiset{ref.session};
        }
      }
      assert refs[..|refs|] == refs;
    }

    method ExpiredRefs(now: Instant) returns (refs: seq<Ref>)
      ensures forall ref :: ref in refs <==>
                ref.session in routes && routes[ref.session].nodeId == ref.nodeId && Expired(routes[ref.session], now)
    {
      refs := [];
      var todo := routes.Keys;
      while todo != {}
        invariant todo <= routes.Keys
        invariant forall ref :: ref in refs <==>
                    ref.session in routes && ref.session !in todo && routes[ref.session].nodeId == ref.nodeId &&
                    Expired(routes[ref.session], now)
      {
        var s :| s in todo;
        if routes[s].lease > 0 && routes[s].lease <= now {
          refs := refs + [Ref(s, routes[s].nodeId)];
        }
        todo := todo - {s};
      }
    }

    method SweepExpired(now: Instant, up: bool)
      requires Valid()
      modifies this`routes, this`index, this`revoked, store
      ensures Valid()
      ensures Value() == RouteModel.SweepExpired(old(Value()), now, up)
      ensures revoked == old(revoked) + multiset(old(routes).Keys - routes.Keys)
    {
      ghost var before := Value();
      var refs := ExpiredRefs(now);
      if |refs| > 0 {
        var deleted := store.DeleteAll(refs, if up then None else Some(0));
        if deleted {
          var lost := RemoveRefs(refs);
          LostIsDifference(before.routes, refs, routes, lost);
        }
      }
      SweepEnds(before, refs, now, up, Value());
    }

    // -------------------------------------------------------------- recovery

    /** Split the node's routes into those offered to the worker and those whose lease is over. */
    method Classify(n: NodeId, now: Instant) returns (candidates: map<SessionId, nat>, lapsed: seq<Ref>)
      requires Valid()
      ensures candidates == Candidates(Value(), n, now, ttl)
      ensures forall ref :: ref in lapsed <==> ref.nodeId == n && ref.session in Lapsed(Value(), n, now, ttl)
    {
      candidates, lapsed := map[], [];
      var todo := Sessions(n);
      while todo != {}
        invariant todo <= BoundTo(routes, n)
        invariant forall s :: s in candidates <==> s in routes && s !in todo && Recoverable(routes[s], n, now, ttl)
        invariant forall s | s in candidates :: candidates[s] == CandidateLease(routes[s], ttl)
        invariant forall ref :: ref in lapsed <==>
                    ref.nodeId == n && ref.session !in todo && ref.session in Lapsed(Value(), n, now, ttl)
      {
        var s :| s in todo;
        var r := routes[s];
        var lease := r.lease;
        if lease == 0 && ttl > 0 {
          lease := r.lastUsed + ttl;
        }
        if r.reservationId != 0 || lease <= now {
          if r.lease > 0 {
            lapsed := lapsed + [Ref(s, r.nodeId)];
          }
        } else {
          candidates := candidates[s := lease];
        }
        todo := todo - {s};
      }
    }

    method Reconcile(n: NodeId, candidates: map<SessionId, nat>)
      requires Valid()
      modifies this`routes
      ensures Valid()
      ensures Reconciled(old(routes), n, candidates, candidates.Keys, routes)
    {
      var todo := candidates.Keys;
      ghost var done: set<SessionId> := {};
      while todo != {}
        invariant Valid()
        invariant todo + done == candidates.Keys && todo !! done
        invariant Reconciled(old(routes), n, candidates, done, routes)
      {
        var s :| s in todo;
        if s in routes && routes[s].nodeId == n {
          Update(s, routes[s].(lease := candidates[s], recovery := Reconciling));
        }
        todo, done := todo - {s}, done + {s};
      }
      assert done == candidates.Keys;
    }

    method BeginRecovery(n: NodeId, now: Instant, up: bool) returns (offered: Option<map<SessionId, nat>>)
      requires Valid()
      modifies this`routes, this`index, this`revoked, store
      ensures Valid()
      ensures (Value(), offered) == RouteModel.BeginRecovery(old(Value()), n, now, ttl, up)
      ensures revoked == old(revoked) + multiset(old(routes).Keys - routes.Keys)
    {
      ghost var before := Value();
      var candidates, lapsed := Classify(n, now);
      if |lapsed| > 0 {
        var deleted := store.DeleteAll(lapsed, if up then None else Some(0));
        if !deleted {
          assert lapsed[0] in lapsed;
          return None;
        }
      }
      ghost var lost := RemoveRefs(lapsed);
      ghost var kept := routes;
      Reconcile(n, candidates);
      BeginEnds(before, n, now, ttl, lapsed, kept, lost, Value());
      return Some(candidates);
    }

    /** Some candidate is now bound to another worker. */
    method AnyForeign(n: NodeId, candidates: map<SessionId, nat>) returns (foreign: bool)
      ensures foreign <==> !StillOwned(Value(), n, candidates)
    {
      var todo := candidates.Keys;
      while todo != {}
        invariant forall s | s in candidates && s in routes && s !in todo :: routes[s].nodeId == n
      {
        var s :| s in todo;
        if s in routes && routes[s].nodeId != n {
          return true;
        }
        todo := todo - {s};
      }
      return false;
    }

    method ReportedGone(n: NodeId, candidates: map<SessionId, nat>, results: map<SessionId, RecoveryStatus>,
                        now: Instant)
      returns (refs: seq<Ref>)
      requires candidates.Keys <= results.Keys && StillOwned(Value(), n, candidates)
      ensures forall ref :: ref in refs <==>
                ref.nodeId == n && ref.session in Doomed(Value(), candidates, results, now) &&
                    routes[ref.session].lease > 0
    {
      refs := [];
      var todo := candidates.Keys;
      while todo != {}
        invariant todo <= candidates.Keys
        invariant forall ref :: ref in refs <==>
                    ref.nodeId == n && ref.session !in todo &&
                        ref.session in Doomed(Value(), candidates, results, now) &&
                    routes[ref.session].lease > 0
      {
        var s :| s in todo;
        if s in routes && routes[s].nodeId == n {
          if results[s] != RouteModel.Recovered || (candidates[s] > 0 && candidates[s] <= now) {
            if routes[s].lease > 0 {
              refs := refs + [Ref(s, routes[s].nodeId)];
            }
          }
        }
        todo := todo - {s};
      }
    }

    method Settle(n: NodeId, candidates: map<SessionId, nat>, results: map<SessionId, RecoveryStatus>, now: Instant)
      returns (ghost lost: multiset<SessionId>)
      requires Valid() && candidates.Keys <= results.Keys && StillOwned(Value(), n, candidates)
      modifies this`routes, this`index, this`revoked
      ensures Valid()
      ensures Settling(old(routes), candidates, results, now, {}, routes, lost)
      ensures revoked == old(revoked) + lost
    {
      lost := multiset{};
      var todo := candidates.Keys;
      while todo != {}
        invariant Valid()
        invariant todo <= candidates.Keys
        invariant forall s | s in candidates && s in routes :: routes[s].nodeId == n
        invariant Settling(old(routes), candidates, results, now, todo, routes, lost)
        invariant revoked == old(revoked) + lost
      {
        var s :| s in todo;
        SettlingStep(old(routes), candidates, results, now, todo, routes, lost, s);
        todo := todo - {s};
        if s !in routes || routes[s].nodeId != n {
          continue;
        }
        if results[s] != RouteModel.Recovered || (candidates[s] > 0 && candidates[s] <= now) {
          Remove(s, routes[s]);
          lost := lost + multiset{s};
          continue;
        }
        Update(s, routes[s].(recovery := Ready, lastUsed := now));
      }
    }

    /** The whole report: rejected ones and failed store calls change nothing. */
    method ApplyReport(n: NodeId, candidates: map<SessionId, nat>, report: RecoveryReport.Report, now: Instant,
                       up: bool)
      returns (checked: RecoveryReport.Checked, result: Option<ReportResult>)
      requires Valid()
      modifies this`routes, this`index, this`revoked, store
      ensures Valid()
      ensures checked.Accepted? <==> RecoveryReport.Exact(candidates, report)
      ensures checked.Accepted? ==>
                RecoveryReport.Denotes(report, checked.results) && checked.results.Keys == candidates.Keys
      ensures !checked.Accepted? ==> result.None? && Value() == old(Value())
      ensures checked.Accepted? ==> result.Some?
      ensures checked.Accepted? ==>
                (Value(), result.value) == ApplyResults(old(Value()), n, candidates, checked.results, now, up)
      ensures revoked == old(revoked) + multiset(old(routes).Keys - routes.Keys)
    {
      checked := RecoveryReport.Check(candidates, report);
      if !checked.Accepted? {
        return checked, None;
      }
      var outcome := Land(n, candidates, checked.results, now, up);
      return checked, Some(outcome);
    }

    method Land(n: NodeId, candidates: map<SessionId, nat>, results: map<SessionId, RecoveryStatus>, now: Instant,
                up: bool)
      returns (result: ReportResult)
      requires Valid() && candidates.Keys <= results.Keys
      modifies this`routes, this`index, this`revoked, store
      ensures Valid()
      ensures (Value(), result) == ApplyResults(old(Value()), n, candidates, results, now, up)
      ensures revoked == old(revoked) + multiset(old(routes).Keys - routes.Keys)
    {
      ghost var before := Value();
      var foreign := AnyForeign(n, candidates);
      if foreign {
        return NotOwner;
      }
      var refs := ReportedGone(n, candidates, results, now);
      if |refs| > 0 {
        var deleted := store.DeleteAll(refs, if up then None else Some(0));
        if !deleted {
          assert refs[0] in refs;
          ghost var leased := set s | s in Doomed(before, candidates, results, now) && before.routes[s].lease > 0;
          assert refs[0].session in leased;
          return ReportStoreFailed;
        }
      }
      ghost var lost := Settle(n, candidates, results, now);
      SettleEnds(before, n, candidates, results, now, up, refs, lost, Value());
      return Applied;
    }

    // -------------------------------------------------------------- restart

    /** Fill an empty table from the store. The duplicate check never fires: the store lists each session once. */
    method Restore(now: Instant, deleteUp: bool, loadUp: bool) returns (ok: bool)
      requires Valid()
      modifies this`routes, this`index, store
      ensures Valid()
      ensures ok <==> deleteUp && loadUp && old(routes) == map[]
      ensures store.rows == if deleteUp then LiveRows(old(store.rows), now) else old(store.rows)
      ensures ok ==> routes == RouteModel.Restore(old(store.rows), now).routes
      ensures !ok ==> routes == old(routes)
    {
      var deleted := store.DeleteExpired(now, deleteUp);
      assert store.rows == if deleteUp then LiveRows(old(store.rows), now) else old(store.rows);
      if !deleted {
        return false;
      }
      var listed := store.LoadActive(now, loadUp);
      if listed.None? {
        return false;
      }
      var built, restored, byNode := Rebuild(listed.value, LiveRows(store.rows, now), now);
      if !built {
        return false;
      }
      RestoreEnds(old(store.rows), now, listed.value, restored);
      if |routes| != 0 || |index| != 0 {
        EmptyIndex(routes, index);
        return false;
      }
      routes, index := restored, byNode;
      return true;
    }
  }
}
