/** Runs of the protocol that a reader of its comments would not expect. Each starts from the empty
    system and exists for every session and worker; the theorem named beside it gives the exact guard. */
module DispatchHazards {
  import opened Common
  import opened RouteModel
  import opened RouteInvariants
  import opened Dispatch
  import opened DispatchInvariants
  import opened DispatchTheorems
  import opened DispatchIncarnations

  const T: Instant := 1

  function Fresh(s: SessionId): Dispatch { Dispatch(s, Exec, None, 1, [], [], Picking) }

  function Alone(t: Table, d: Dispatch): State { State(t, map[0 := d]) }

  function Pair(t: Table, d: Dispatch, e: Dispatch): State { State(t, map[0 := d, 1 := e]) }

  lemma AdvanceAlone(t: Table, d: Dispatch, m: Move, u: Table, e: Dispatch)
    requires Reachable(Alone(t, d)) && Step(t, d, m) == Some((u, e))
    ensures Reachable(Alone(u, e))
  {
    assert map[0 := d][0 := e] == map[0 := e];
    ReachNext(Alone(t, d), Advance(0, m), Alone(u, e));
  }

  lemma AdvanceFirst(t: Table, d: Dispatch, e: Dispatch, m: Move, u: Table, f: Dispatch)
    requires Step(t, d, m) == Some((u, f))
    ensures Next(Pair(t, d, e), Advance(0, m)) == Some(Pair(u, f, e))
    ensures Reachable(Pair(t, d, e)) ==> Reachable(Pair(u, f, e))
  {
    assert map[0 := d, 1 := e][0 := f] == map[0 := f, 1 := e];
    if Reachable(Pair(t, d, e)) {
      ReachNext(Pair(t, d, e), Advance(0, m), Pair(u, f, e));
    }
  }

  lemma AdvanceSecond(t: Table, d: Dispatch, e: Dispatch, m: Move, u: Table, f: Dispatch)
    requires Step(t, e, m) == Some((u, f))
    ensures Next(Pair(t, d, e), Advance(1, m)) == Some(Pair(u, d, f))
    ensures Reachable(Pair(t, d, e)) ==> Reachable(Pair(u, d, f))
  {
    assert map[0 := d, 1 := e][1 := f] == map[0 := d, 1 := f];
    if Reachable(Pair(t, d, e)) {
      ReachNext(Pair(t, d, e), Advance(1, m), Pair(u, d, f));
    }
  }

  /** Dispatch 0 finds no route, reserves the session at n and runs there. */
  function Reserved(s: SessionId, n: NodeId): Table { Table(map[s := FreshRoute(n, 1, T)], map[], 1) }

  function First(s: SessionId, n: NodeId): Dispatch { Fresh(s).(attempted := [n], pc := Running(Grip(n, 1))) }

  lemma FirstReserves(s: SessionId, n: NodeId)
    ensures Reachable(Alone(Reserved(s, n), First(s, n)))
  {
    var d := Fresh(s);
    BootReachable();
    assert map[][0 := d] == map[0 := d];
    ReachNext(Boot, Start(0, d), Alone(Empty, d));
    AdvanceAlone(Empty, d, Clean(None), Empty, To(d, Looking));
    AdvanceAlone(Empty, To(d, Looking), Look(T, true, true), Empty, To(d, Claiming));
    AdvanceAlone(Empty, To(d, Claiming), ClaimRoute(T), Empty, To(d, Choosing(0)));
    AdvanceAlone(Empty, To(d, Choosing(0)), Choose(Some(n), NoWorker), Empty, To(d, Reserving(0, n)));
    assert map[][s := FreshRoute(n, 1, T)] == map[s := FreshRoute(n, 1, T)];
    assert [] + [n] == [n];
    AdvanceAlone(Empty, To(d, Reserving(0, n)), ReserveRoute(T), Reserved(s, n), First(s, n));
  }

  /** Dispatch 1 joins the reservation and has yet to take a slot. */
  function Joined(s: SessionId, n: NodeId): Table { Table(map[s := FreshRoute(n, 1, T).(uses := 2)], map[], 1) }

  function Second(s: SessionId, n: NodeId): Dispatch { Fresh(s).(pc := Holding(Grip(n, 1))) }

  lemma SecondJoins(s: SessionId, n: NodeId)
    ensures Reachable(Pair(Joined(s, n), First(s, n), Second(s, n)))
  {
    FirstReserves(s, n);
    var t, d, e := Reserved(s, n), First(s, n), Fresh(s);
    assert map[0 := d][1 := e] == map[0 := d, 1 := e];
    ReachNext(Alone(t, d), Start(1, e), Pair(t, d, e));
    AdvanceSecond(t, d, e, Clean(None), t, To(e, Looking));
    AdvanceSecond(t, d, To(e, Looking), Look(T, true, true), t, To(e, Claiming));
    assert t.routes[s := Join(t.routes[s], T)] == Joined(s, n).routes;
    AdvanceSecond(t, d, To(e, Claiming), ClaimRoute(T), Joined(s, n), Second(s, n));
  }

  /** A failing co-holder can remove a route that another holder has confirmed and persisted: dispatch 0
      commits, then dispatch 1 finds the worker gone and clears the session. Exact guard: BlindClear in
      RouteLostIff. */
  lemma CoHolderDropsCommitted(s: SessionId, n: NodeId, lease: nat) returns (before: State, after: State)
    requires lease > 0
    ensures Reachable(before) && Next(before, Advance(1, TakeSlot(WorkerGone, true))) == Some(after)
    ensures before.active.Keys == {0, 1} && before.active[0].pc == Done(Success)
    ensures s in before.table.rows && s in before.table.routes && !Provisional(before.table.routes[s])
    ensures s !in after.table.rows && s !in after.table.routes
  {
    SecondJoins(s, n);
    var t, d, e := Joined(s, n), First(s, n), Second(s, n);
    var (u, f) := Step(t, d, End(Replied(lease, T, true))).value;
    AdvanceFirst(t, d, e, End(Replied(lease, T, true)), u, f);
    var (v, g) := Step(u, e, TakeSlot(WorkerGone, true)).value;
    AdvanceSecond(u, f, e, TakeSlot(WorkerGone, true), v, g);
    return Pair(u, f, e), Pair(v, f, g);
  }

  /** Nor does it spare a reservation others hold: dispatch 1 finds the worker gone and takes away the route that
      dispatch 0 is running on. Exact guard: BlindClear in RouteLostIff. */
  lemma CoHolderDropsHeld(s: SessionId, n: NodeId) returns (before: State, after: State)
    ensures Reachable(before) && Next(before, Advance(1, TakeSlot(WorkerGone, true))) == Some(after)
    ensures s in before.table.routes && Provisional(before.table.routes[s])
    ensures Holders(before.active, s, before.table.routes[s].reservationId) == {0, 1}
    ensures s !in after.table.routes && 0 in after.active && after.active[0].pc.Running?
    ensures HeldId(after.active[0]) == before.table.routes[s].reservationId
  {
    SecondJoins(s, n);
    var t, d, e := Joined(s, n), First(s, n), Second(s, n);
    var (u, f) := Step(t, e, TakeSlot(WorkerGone, true)).value;
    AdvanceSecond(t, d, e, TakeSlot(WorkerGone, true), u, f);
    return Pair(t, d, e), Pair(u, d, f);
  }

  /** A commit that fails keeps the reservation counted although its dispatch is over: once the other
      holder has released, the route is still provisional, is used once and is held by nobody. Exact guard:
      Leaks in TallyBreaksIff. */
  lemma FailedCommitLeaksUse(s: SessionId, n: NodeId, lease: nat) returns (end: State)
    ensures Reachable(end) && end.active.Keys == {0, 1}
    ensures s in end.table.routes && Provisional(end.table.routes[s]) && end.table.routes[s].uses == 1
    ensures Holders(end.active, s, end.table.routes[s].reservationId) == {}
  {
    SecondJoins(s, n);
    var t, d, e := Joined(s, n), First(s, n), Second(s, n);
    AdvanceFirst(t, d, e, End(Replied(lease, T, false)), t, To(d, Done(AttemptError)));
    var (u, f) := Step(t, e, TakeSlot(WorkerFull, true)).value;
    AdvanceSecond(t, To(d, Done(AttemptError)), e, TakeSlot(WorkerFull, true), u, f);
    end := Pair(u, To(d, Done(AttemptError)), f);
  }

  // ---------------------------------------------------------------- a third dispatch

  function Three(t: Table, d: Dispatch, e: Dispatch, f: Dispatch): State { State(t, map[0 := d, 1 := e, 2 := f]) }

  lemma AdvanceThird(t: Table, d: Dispatch, e: Dispatch, f: Dispatch, m: Move, u: Table, g: Dispatch)
    requires Reachable(Three(t, d, e, f)) && Step(t, f, m) == Some((u, g))
    ensures Reachable(Three(u, d, e, g))
  {
    assert map[0 := d, 1 := e, 2 := f][2 := g] == map[0 := d, 1 := e, 2 := g];
    ReachNext(Three(t, d, e, f), Advance(2, m), Three(u, d, e, g));
  }

  /** Dispatch 2 starts when the session has no route and reserves it afresh at n. */
  function Again(s: SessionId, n: NodeId, id: nat): Table { Table(map[s := FreshRoute(n, id, T)], map[], id) }

  function Third(s: SessionId, n: NodeId, id: nat): Dispatch { Fresh(s).(attempted := [n], pc := Running(Grip(n, id))) }

  lemma ThirdReserves(s: SessionId, n: NodeId, d: Dispatch, e: Dispatch, id: nat)
    requires Reachable(Pair(Table(map[], map[], id), d, e))
    ensures Reachable(Three(Again(s, n, id + 1), d, e, Third(s, n, id + 1)))
  {
    var t, f := Table(map[], map[], id), Fresh(s);
    assert map[0 := d, 1 := e][2 := f] == map[0 := d, 1 := e, 2 := f];
    ReachNext(Pair(t, d, e), Start(2, f), Three(t, d, e, f));
    AdvanceThird(t, d, e, f, Clean(None), t, To(f, Looking));
    AdvanceThird(t, d, e, To(f, Looking), Look(T, true, true), t, To(f, Claiming));
    AdvanceThird(t, d, e, To(f, Claiming), ClaimRoute(T), t, To(f, Choosing(0)));
    AdvanceThird(t, d, e, To(f, Choosing(0)), Choose(Some(n), NoWorker), t, To(f, Reserving(0, n)));
    assert map[][s := FreshRoute(n, id + 1, T)] == map[s := FreshRoute(n, id + 1, T)];
    assert [] + [n] == [n];
    AdvanceThird(t, d, e, To(f, Reserving(0, n)), ReserveRoute(T), Again(s, n, id + 1), Third(s, n, id + 1));
  }

  /** A stale holder can remove a later incarnation of the session: its reservation is gone, dispatch 2 has
      reserved the session again at the same node and runs there, and the stale dispatch finds the worker gone.
      Exact guard: StaleHolderChangesIff. */
  lemma StaleHolderDropsSuccessor(s: SessionId, n: NodeId) returns (before: State, after: State)
    ensures Reachable(before) && Next(before, Advance(1, TakeSlot(WorkerGone, true))) == Some(after)
    ensures 1 in before.active && Stale(before.table, before.active[1])
    ensures 2 in before.active && before.active[2].pc.Running? && s in before.table.routes
    ensures HeldId(before.active[2]) == before.table.routes[s].reservationId != 0
    ensures s !in after.table.routes
  {
    SecondJoins(s, n);
    var t, d, e := Joined(s, n), First(s, n), Second(s, n);
    var none := Table(map[], map[], 1);
    assert MarkUnavailable(t, n) == none;
    ReachNext(Pair(t, d, e), Environment(DoMark(n)), Pair(none, d, e));
    ThirdReserves(s, n, d, e, 1);
    var u, f := Again(s, n, 2), Third(s, n, 2);
    var (v, g) := Step(u, e, TakeSlot(WorkerGone, true)).value;
    assert v.routes == map[];
    assert map[0 := d, 1 := e, 2 := f][1 := g] == map[0 := d, 1 := g, 2 := f];
    return Three(u, d, e, f), Three(v, d, g, f);
  }

  /** The session confirmed at n, and dispatch 1 running there under id 0. */
  function Settled(s: SessionId, n: NodeId, lease: nat): Table {
    Table(map[s := Route(n, T, lease, T, Ready, 0, 1, 0)], map[s := Row(n, lease, T, T, T)], 1)
  }

  function Visitor(s: SessionId, n: NodeId): Dispatch { Fresh(s).(attempted := [n], pc := Running(Grip(n, 0))) }

  lemma FirstSettles(s: SessionId, n: NodeId, lease: nat)
    requires lease > T
    ensures Reachable(Pair(Settled(s, n, lease), To(First(s, n), Done(Success)), Fresh(s)))
  {
    FirstReserves(s, n);
    var r, t, d, e := Reserved(s, n), Settled(s, n, lease), First(s, n), Fresh(s);
    assert r.routes[s := t.routes[s]] == t.routes && map[][s := t.rows[s]] == t.rows;
    AdvanceAlone(r, d, End(Replied(lease, T, true)), t, To(d, Done(Success)));
    BesideFirst(t, To(d, Done(Success)), e);
  }

  /** A second dispatch starts. */
  lemma BesideFirst(t: Table, d: Dispatch, e: Dispatch)
    requires Reachable(Alone(t, d)) && Startable(e)
    ensures Reachable(Pair(t, d, e))
  {
    assert map[0 := d][1 := e] == map[0 := d, 1 := e];
    ReachNext(Alone(t, d), Start(1, e), Pair(t, d, e));
  }

  lemma VisitorRuns(s: SessionId, n: NodeId, lease: nat)
    requires lease > T
    ensures Reachable(Pair(Settled(s, n, lease), To(First(s, n), Done(Success)), Visitor(s, n)))
  {
    FirstSettles(s, n, lease);
    var t, done, e := Settled(s, n, lease), To(First(s, n), Done(Success)), Fresh(s);
    AdvanceSecond(t, done, e, Clean(None), t, To(e, Looking));
    AdvanceSecond(t, done, To(e, Looking), Look(T, true, true), t, To(e, Claiming));
    assert t.routes[s := Join(t.routes[s], T)] == t.routes;
    AdvanceSecond(t, done, To(e, Claiming), ClaimRoute(T), t, To(e, Holding(Grip(n, 0))));
    assert [] + [n] == [n];
    AdvanceSecond(t, done, To(e, Holding(Grip(n, 0))), TakeSlot(Taken, true), t, Visitor(s, n));
  }

  /** Its route is deleted, and dispatch 2 reserves the session again at the same node. */
  lemma VisitorOverReservation(s: SessionId, n: NodeId, lease: nat)
    requires lease > T
    ensures Reachable(Three(Again(s, n, 2), To(First(s, n), Done(Success)), Visitor(s, n), Third(s, n, 2)))
  {
    VisitorRuns(s, n, lease);
    var t, d, e := Settled(s, n, lease), To(First(s, n), Done(Success)), Visitor(s, n);
    var none := Table(map[], map[], 1);
    assert Clear(t, s, Some(n), true).0 == none;
    ReachNext(Pair(t, d, e), Environment(DoClear(s, Some(n), true)), Pair(none, d, e));
    ThirdReserves(s, n, d, e, 1);
  }

  /** A dispatch can hold id 0 over somebody else's provisional route: dispatch 1 runs at a confirmed route, the
      route is deleted, dispatch 2 reserves the session again at the same node, dispatch 1 commits over it, and
      the reply to dispatch 2 ends in an error. */
  lemma ZeroIdCommitsOverReservation(s: SessionId, n: NodeId, lease: nat)
    returns (before: State, between: State, after: State)
    requires lease > T
    ensures Reachable(before) && Next(before, Advance(1, End(Replied(lease, T, true)))) == Some(between)
    ensures Next(between, Advance(2, End(Replied(lease, T, true)))) == Some(after)
    ensures 1 in before.active && GripOf(before.active[1]) == Some(Grip(n, 0))
    ensures s in before.table.routes && Provisional(before.table.routes[s]) && s !in before.table.rows
    ensures Holders(before.active, s, before.table.routes[s].reservationId) == {2}
    ensures 1 in between.active && between.active[1].pc == Done(Success) && s in between.table.rows
    ensures 2 in after.active && after.active[2].pc == Done(AttemptError) && after.table == between.table
  {
    VisitorOverReservation(s, n, lease);
    var u, d, e, f := Again(s, n, 2), To(First(s, n), Done(Success)), Visitor(s, n), Third(s, n, 2);
    var (v, g) := Step(u, e, End(Replied(lease, T, true))).value;
    var (w, h) := Step(v, f, End(Replied(lease, T, true))).value;
    assert map[0 := d, 1 := e, 2 := f][1 := g] == map[0 := d, 1 := g, 2 := f];
    assert map[0 := d, 1 := g, 2 := f][2 := h] == map[0 := d, 1 := g, 2 := h];
    return Three(u, d, e, f), Three(v, d, g, f), Three(w, d, g, h);
  }

  /** The session confirmed at n, never leased. */
  function Unleased(s: SessionId, n: NodeId): Table { Table(map[s := Route(n, T, 0, 0, Ready, 0, 1, 0)], map[], 1) }

  lemma FirstConfirms(s: SessionId, n: NodeId)
    ensures Reachable(Pair(Unleased(s, n), To(First(s, n), Done(WorkerError)), Fresh(s)))
  {
    FirstReserves(s, n);
    var r, t, d := Reserved(s, n), Unleased(s, n), First(s, n);
    assert r.routes[s := t.routes[s]] == t.routes;
    AdvanceAlone(r, d, End(OtherError(T)), t, To(d, Done(WorkerError)));
    BesideFirst(t, To(d, Done(WorkerError)), Fresh(s));
  }

  /** A confirmed session that was never leased does not stay where it is: idle for long enough, it is pruned by
      its own next dispatch, which is then free to reserve any other worker. Exact guard: Spared in
      PinnedIff. */
  lemma IdleSessionMoves(s: SessionId, n: NodeId, other: NodeId, ttl: nat) returns (before: State, after: State)
    requires ttl > 0 && n != other
    ensures Reachable(before) && Reachable(after)
    ensures s in before.table.routes && before.table.routes[s].nodeId == n && !Provisional(before.table.routes[s])
    ensures 1 in before.active && before.active[1] == Fresh(s)
    ensures s in after.table.routes && after.table.routes[s].nodeId == other
    ensures 1 in after.active && after.active[1].pc.Running? && after.active[1].pc.grip.nodeId == other
  {
    FirstConfirms(s, n);
    var t, done, e := Unleased(s, n), To(First(s, n), Done(WorkerError)), Fresh(s);
    var none, later: Instant := Table(map[], map[], 1), T + ttl;
    assert Prune(t, later, ttl, true) == none;
    AdvanceSecond(t, done, e, Clean(Some(Pruning(later, ttl, true))), none, To(e, Looking));
    SecondReserves(s, other, done, later);
    return Pair(t, done, e), Pair(Table(map[s := FreshRoute(other, 2, later)], map[], 2), done, Third(s, other, 2));
  }

  /** Dispatch 1 finds no route and reserves the session. */
  lemma SecondReserves(s: SessionId, n: NodeId, d: Dispatch, now: Instant)
    requires Reachable(Pair(Table(map[], map[], 1), d, To(Fresh(s), Looking)))
    ensures Reachable(Pair(Table(map[s := FreshRoute(n, 2, now)], map[], 2), d, Third(s, n, 2)))
  {
    var none, e := Table(map[], map[], 1), Fresh(s);
    AdvanceSecond(none, d, To(e, Looking), Look(now, true, true), none, To(e, Claiming));
    AdvanceSecond(none, d, To(e, Claiming), ClaimRoute(now), none, To(e, Choosing(0)));
    AdvanceSecond(none, d, To(e, Choosing(0)), Choose(Some(n), NoWorker), none, To(e, Reserving(0, n)));
    assert map[][s := FreshRoute(n, 2, now)] == map[s := FreshRoute(n, 2, now)];
    assert [] + [n] == [n];
    AdvanceSecond(none, d, To(e, Reserving(0, n)), ReserveRoute(now),
                  Table(map[s := FreshRoute(n, 2, now)], map[], 2), Third(s, n, 2));
  }
}
