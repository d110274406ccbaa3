/** What a recovery handshake leaves behind, for each session of the worker and for everybody else. */
module RecoveryTheorems {
  import opened Common
  import opened RouteModel
  import opened RouteInvariants

  /** Gone from the table and from the store. */
  predicate Gone(t: Table, s: SessionId) { s !in t.routes && s !in t.rows }

  /** Still bound as it was in t, same lease and same row, and serving again. */
  predicate ServesAgain(t: Table, u: Table, s: SessionId) {
    && s in t.routes && s in u.routes && u.routes[s].recovery == Ready
    && u.routes[s].nodeId == t.routes[s].nodeId && u.routes[s].lease == t.routes[s].lease
    && At(u, s).row == At(t, s).row
  }

  /** A report is all or nothing: one that is refused changes nothing at all; after an applied one every
      candidate still in the table either serves again or is gone from memory and store, exactly as reported,
      and no other session is touched. */
  lemma ReportAllOrNothing(t: Table, n: NodeId, candidates: map<SessionId, nat>,
                           results: map<SessionId, RecoveryStatus>, now: Instant, up: bool)
    requires Inv(t) && candidates.Keys <= results.Keys
    ensures var (u, outcome) := ApplyResults(t, n, candidates, results, now, up);
      if outcome != Applied then u == t
      else
        && (forall s | s in candidates && s in t.routes ::
              if results[s] == Recovered && !(0 < candidates[s] <= now) then ServesAgain(t, u, s) else Gone(u, s))
        && (forall s | s !in candidates :: At(u, s) == At(t, s))
  {
    var (u, outcome) := ApplyResults(t, n, candidates, results, now, up);
    if outcome == Applied {
      forall s | s in candidates && s in t.routes
        ensures if results[s] == Recovered && !(0 < candidates[s] <= now) then ServesAgain(t, u, s) else Gone(u, s)
      {
        assert CellOk(At(t, s), t.lastReservation);
      }
    }
  }

  /** What the beginning of a handshake does to one session. */
  predicate OfferedRight(t: Table, n: NodeId, now: Instant, ttl: nat, up: bool, s: SessionId)
    requires BeginRecovery(t, n, now, ttl, up).1.Some?
  {
    var (u, offered) := BeginRecovery(t, n, now, ttl, up);
    && (s in offered.value <==>
          s in u.routes && u.routes[s].nodeId == n && !Provisional(u.routes[s]) && u.routes[s].lease > 0)
    && (s in offered.value ==> u.routes[s].recovery == Reconciling && u.routes[s].lease == offered.value[s] > now)
    && (s in t.routes && s !in u.routes ==> t.routes[s].nodeId == n && 0 < t.routes[s].lease <= now && Gone(u, s))
    && (s in t.routes && t.routes[s].nodeId != n ==> At(u, s) == At(t, s))
  }

  lemma OfferCell(t: Table, n: NodeId, now: Instant, ttl: nat, up: bool, s: SessionId)
    requires Inv(t)
    ensures BeginRecovery(t, n, now, ttl, up).1.Some? ==> OfferedRight(t, n, now, ttl, up, s)
  {
    assert CellOk(At(t, s), t.lastReservation);
  }

  /** When a handshake begins, the worker is offered exactly its confirmed sessions that are leased from then on,
      each under the lease it now has, which is open; its sessions whose lease is over are gone, and sessions
      of other workers are not touched. */
  lemma OfferIsExact(t: Table, n: NodeId, now: Instant, ttl: nat, up: bool)
    requires Inv(t)
    ensures BeginRecovery(t, n, now, ttl, up).1.None? ==> BeginRecovery(t, n, now, ttl, up).0 == t
    ensures BeginRecovery(t, n, now, ttl, up).1.Some? ==> forall s :: OfferedRight(t, n, now, ttl, up, s)
  {
    forall s
      ensures BeginRecovery(t, n, now, ttl, up).1.Some? ==> OfferedRight(t, n, now, ttl, up, s)
    {
      OfferCell(t, n, now, ttl, up, s);
    }
  }

  /** The session is offered, or dropped, by a handshake begun now: it is confirmed, and leased or, by its idle time,
      treated as such. */
  predicate Concerned(r: Route, begun: Instant, ttl: nat) {
    !Provisional(r) && (r.lease > 0 || CandidateLease(r, ttl) > begun)
  }

  /** A whole handshake without interference, for every session of the worker. One that is being created, or was never
      leased and has been idle too long to be offered, is left alone. Any other survives if and only if its lease
      (the end of its idle time, if it was never leased) is open at both ends and the worker reports it recovered;
      then it serves again under its binding, that lease and its row. Otherwise nothing is left of it. */
  lemma HandshakeOutcome(t: Table, n: NodeId, begun: Instant, ttl: nat, results: map<SessionId, RecoveryStatus>,
                         done: Instant, s: SessionId)
    requires Inv(t) && s in t.routes && t.routes[s].nodeId == n
    requires var offered := BeginRecovery(t, n, begun, ttl, true).1; offered.Some? && offered.value.Keys <= results.Keys
    ensures
      var (u, offered) := BeginRecovery(t, n, begun, ttl, true);
      var (v, outcome) := ApplyResults(u, n, offered.value, results, done, true);
      var r, lease := t.routes[s], CandidateLease(t.routes[s], ttl);
      && outcome == Applied
      && if !Concerned(r, begun, ttl) then At(v, s) == At(t, s)
         else if lease > begun && lease > done && s in results && results[s] == Recovered then
           && s in v.routes && v.routes[s].recovery == Ready && v.routes[s].nodeId == n && v.routes[s].lease == lease
           && At(v, s).row == At(t, s).row
         else Gone(v, s)
  {
    var (u, offered) := BeginRecovery(t, n, begun, ttl, true);
    assert CellOk(At(t, s), t.lastReservation);
    InvKept(t, DoBegin(n, begun, ttl, true));
    OfferIsExact(t, n, begun, ttl, true);
    assert forall x | x in offered.value :: OfferedRight(t, n, begun, ttl, true, x);
    assert OfferedRight(t, n, begun, ttl, true, s);
    ReportAllOrNothing(u, n, offered.value, results, done, true);
    OfferOf(t, n, begun, ttl, s);
  }

  /** What the beginning of a handshake makes of one session of the worker. */
  lemma OfferOf(t: Table, n: NodeId, begun: Instant, ttl: nat, s: SessionId)
    requires Inv(t) && s in t.routes && t.routes[s].nodeId == n
    ensures var (u, offered) := BeginRecovery(t, n, begun, ttl, true);
      var lease := CandidateLease(t.routes[s], ttl);
      if !Concerned(t.routes[s], begun, ttl) then s !in offered.value && At(u, s) == At(t, s)
      else if lease > begun then
        && s in offered.value && offered.value[s] == lease
        && s in u.routes && u.routes[s].nodeId == n && u.routes[s].lease == lease && At(u, s).row == At(t, s).row
      else s !in offered.value && Gone(u, s)
  {
    assert CellOk(At(t, s), t.lastReservation);
  }

  /** A commit either changes nothing, or leaves a confirmed route and its row agreeing on node and lease; the
      lease is the larger of the old and the new one. */
  lemma CommitOutcome(t: Table, s: SessionId, n: NodeId, id: nat, lease: nat, now: Instant, up: bool)
    requires Inv(t)
    ensures var (u, result) := Commit(t, s, n, id, lease, now, up);
      if result != Committed then u == t
      else
        && s in t.routes && s in u.routes && s in u.rows && Mirrors(u.routes[s], u.rows[s])
        && u.routes[s].nodeId == n && !Provisional(u.routes[s]) && u.routes[s].recovery == Ready
        && u.routes[s].lease == Max(t.routes[s].lease, lease)
        && forall x | x != s :: At(u, x) == At(t, x)
    ensures Commit(t, s, n, id, lease, now, true).1 == Committed <==> lease > 0 && Accepts(t, s, n, id)
  {
    assert CellOk(At(t, s), t.lastReservation);
    InvKept(t, DoCommit(s, n, id, lease, now, up));
    CommitNeverConflicts(t, s, n, id, lease, now, true);
  }
}
