/** What a connection can still do to its successor.

    Unregistering and marking are two critical sections. If the worker reconnects and completes its
    recovery in between, the late mark makes its recovered routes unavailable and drops the sessions being
    created on it, although the worker is connected and ready. MarkChangesIff says exactly which routes a
    mark changes, MarkHitsSuccessorIff exactly when it hits a successor. */
module ConnectionHazard {
  import opened Common
  import opened RouteModel
  import opened ConnectionRegistry
  import opened ConnectionRuns
  import RouteInvariants

  const T: Instant := 1
  const Setup := Config(Replace, 0, 0)

  function Leased(n: NodeId, lease: nat, recovery: RecoveryState): Route {
    Route(n, T, lease, T, recovery, 0, 1, 0)
  }

  function Routed(s: SessionId, n: NodeId, lease: nat, recovery: RecoveryState): Table {
    Table(map[s := Leased(n, lease, recovery)], map[s := Row(n, lease, T, T, T)], 1)
  }

  function Link(n: NodeId, phase: Phase, entered: Option<nat>, left: Option<nat>): Conn {
    Conn(n, phase, false, false, T, entered, left)
  }

  /** A session is created and committed at n. */
  lemma SessionExists(s: SessionId, n: NodeId, lease: nat)
    requires lease > 0
    ensures Reachable(Setup, State(Registry(map[], map[], 2), Routed(s, n, lease, Ready), map[], {}))
  {
    BootReachable(Setup);
    var reserved := Table(map[s := FreshRoute(n, 1, T)], map[], 1);
    assert map[][s := FreshRoute(n, 1, T)] == map[s := FreshRoute(n, 1, T)];
    var one := State(Registry(map[], map[], 1), reserved, map[], {});
    ReachNext(Setup, Boot, Routing(RouteInvariants.DoReserve(s, n, T)), one);
    assert map[s := FreshRoute(n, 1, T)][s := Leased(n, lease, Ready)] == map[s := Leased(n, lease, Ready)];
    assert map[][s := Row(n, lease, T, T, T)] == map[s := Row(n, lease, T, T, T)];
    ReachNext(Setup, one, Routing(RouteInvariants.DoCommit(s, n, 1, lease, T, true)),
              State(Registry(map[], map[], 2), Routed(s, n, lease, Ready), map[], {}));
  }

  /** Beginning recovery offers the session and marks it reconciling. */
  lemma BeginOffers(s: SessionId, n: NodeId, lease: nat, recovery: RecoveryState)
    requires lease > T
    ensures BeginRecovery(Routed(s, n, lease, recovery), n, T, 0, true) ==
            (Routed(s, n, lease, Reconciling), Some(map[s := lease]))
  {
    var t := Routed(s, n, lease, recovery);
    assert Lapsed(t, n, T, 0) == {};
    assert Candidates(t, n, T, 0) == map[s := lease];
    assert BeginRecovery(t, n, T, 0, true).0.routes == Routed(s, n, lease, Reconciling).routes;
    assert RowsWithout(t.rows, {}, n) == t.rows;
  }

  lemma NoneLeased(t: Table, doomed: set<SessionId>)
    requires doomed <= t.routes.Keys
    ensures doomed == {} ==> (set x | x in doomed && t.routes[x].lease > 0) == {}
  {
  }

  lemma ReportRecovers(s: SessionId, n: NodeId, lease: nat)
    requires lease > T
    ensures ApplyResults(Routed(s, n, lease, Reconciling), n, map[s := lease], map[s := Recovered], T, true) ==
            (Routed(s, n, lease, Ready), Applied)
  {
    var t := Routed(s, n, lease, Reconciling);
    var doomed := Doomed(t, map[s := lease], map[s := Recovered], T);
    assert doomed == {};
    NoneLeased(t, doomed);
    var (u, _) := ApplyResults(t, n, map[s := lease], map[s := Recovered], T, true);
    assert u.routes == Routed(s, n, lease, Ready).routes;
    assert RowsWithout(t.rows, {}, n) == t.rows;
  }

  /** Connection 0 serves the worker. */
  function FirstServing(s: SessionId, n: NodeId, lease: nat): State {
    State(Registry(map[n := 0], map[0 := Link(n, Serving, Some(4), None)], 5),
          Routed(s, n, lease, Reconciling), map[0 := map[s := lease]], {})
  }

  lemma FirstConnects(s: SessionId, n: NodeId, lease: nat)
    requires lease > T
    ensures Reachable(Setup, FirstServing(s, n, lease))
  {
    SessionExists(s, n, lease);
    BeginOffers(s, n, lease, Ready);
    var t, u := Routed(s, n, lease, Ready), Routed(s, n, lease, Reconciling);
    var s2 := State(Registry(map[], map[], 2), t, map[], {});
    var s3 := State(Registry(map[], map[0 := Link(n, Fresh, None, None)], 3), t, map[], {});
    var s4 := State(Registry(map[], map[0 := Link(n, Offered, None, None)], 4), u, map[0 := map[s := lease]], {});
    ReachNext(Setup, s2, Open(0, n, T), s3);
    ReachNext(Setup, s3, Begin(0, T, true), s4);
    ReachNext(Setup, s4, TakeOver(0), FirstServing(s, n, lease));
  }

  /** It unregisters, with its mark still to come. */
  function FirstLeft(s: SessionId, n: NodeId, lease: nat): State {
    State(Registry(map[], map[0 := Link(n, Marking, Some(4), Some(6))], 7),
          Routed(s, n, lease, Reconciling), map[0 := map[s := lease]], {})
  }

  lemma FirstLeaves(s: SessionId, n: NodeId, lease: nat)
    requires lease > T
    ensures Reachable(Setup, FirstLeft(s, n, lease))
  {
    FirstConnects(s, n, lease);
    var s5 := FirstServing(s, n, lease);
    var s6 := s5.(registry := Registry(map[n := 0], map[0 := Link(n, Leaving, Some(4), None)], 6));
    ReachNext(Setup, s5, Quit(0), s6);
    ReachNext(Setup, s6, Unregister(0), FirstLeft(s, n, lease));
  }

  /** Connection 1 takes the worker's place. */
  function SecondServing(s: SessionId, n: NodeId, lease: nat): State {
    State(Registry(map[n := 1], map[0 := Link(n, Marking, Some(4), Some(6)), 1 := Link(n, Serving, Some(9), None)], 10),
          Routed(s, n, lease, Reconciling), map[0 := map[s := lease], 1 := map[s := lease]], {})
  }

  /** On its way: offered the session, not registered yet. */
  function SecondOffered(s: SessionId, n: NodeId, lease: nat): State {
    var conns := map[0 := Link(n, Marking, Some(4), Some(6)), 1 := Link(n, Offered, None, None)];
    SecondServing(s, n, lease).(registry := Registry(map[], conns, 9))
  }

  lemma SecondIsOffered(s: SessionId, n: NodeId, lease: nat)
    requires lease > T
    ensures Reachable(Setup, SecondOffered(s, n, lease))
  {
    FirstLeaves(s, n, lease);
    BeginOffers(s, n, lease, Reconciling);
    var s7 := FirstLeft(s, n, lease);
    var conns := map[0 := Link(n, Marking, Some(4), Some(6)), 1 := Link(n, Fresh, None, None)];
    var s8 := s7.(registry := Registry(map[], conns, 8));
    ReachNext(Setup, s7, Open(1, n, T), s8);
    ReachNext(Setup, s8, Begin(1, T, true), SecondOffered(s, n, lease));
  }

  lemma SecondConnects(s: SessionId, n: NodeId, lease: nat)
    requires lease > T
    ensures Reachable(Setup, SecondServing(s, n, lease))
  {
    SecondIsOffered(s, n, lease);
    ReachNext(Setup, SecondOffered(s, n, lease), TakeOver(1), SecondServing(s, n, lease));
  }

  /** And recovers the session. */
  function SecondReady(s: SessionId, n: NodeId, lease: nat): State {
    var s10 := SecondServing(s, n, lease);
    s10.(registry := s10.registry.(clock := 11), table := Routed(s, n, lease, Ready), recovered := {1})
  }

  lemma SecondRecovers(s: SessionId, n: NodeId, lease: nat)
    requires lease > T
    ensures Reachable(Setup, SecondReady(s, n, lease))
  {
    SecondConnects(s, n, lease);
    ReportRecovers(s, n, lease);
    ReachNext(Setup, SecondServing(s, n, lease), Report(1, map[s := Recovered], T, true), SecondReady(s, n, lease));
  }

  /** The late mark of connection 0 hits connection 1's recovered session. */
  lemma LateMarkHitsSuccessor(s: SessionId, n: NodeId, lease: nat) returns (before: State, after: State)
    requires lease > T
    ensures Reachable(Setup, before) && Enabled(Setup, before, MarkRoutes(0))
    ensures after == Next(Setup, before, MarkRoutes(0))
    ensures IsCurrent(before.registry, 1) && At(before.registry, 1, Serving) && 1 in before.recovered
    ensures before.table.routes.Keys == {s} && before.table.routes[s].recovery == Ready
    ensures IsCurrent(after.registry, 1) && s in after.table.routes && after.table.routes[s].recovery == Unavailable
  {
    SecondRecovers(s, n, lease);
    before := SecondReady(s, n, lease);
    after := Next(Setup, before, MarkRoutes(0));
  }

  /** And it drops a session that is being created on connection 1. */
  lemma LateMarkDropsReservation(s: SessionId, other: SessionId, n: NodeId, lease: nat)
    returns (before: State, after: State)
    requires lease > T && other != s
    ensures Reachable(Setup, before) && Enabled(Setup, before, MarkRoutes(0))
    ensures after == Next(Setup, before, MarkRoutes(0))
    ensures IsCurrent(before.registry, 1) && At(before.registry, 1, Serving) && 1 in before.recovered
    ensures other in before.table.routes && Provisional(before.table.routes[other])
    ensures before.table.routes[other].nodeId == n && before.registry.conns[1].nodeId == n
    ensures IsCurrent(after.registry, 1) && other !in after.table.routes
  {
    SecondRecovers(s, n, lease);
    var ready := SecondReady(s, n, lease);
    before := Next(Setup, ready, Routing(RouteInvariants.DoReserve(other, n, T)));
    ReachNext(Setup, ready, Routing(RouteInvariants.DoReserve(other, n, T)), before);
    after := Next(Setup, before, MarkRoutes(0));
  }

  // ---------------------------------------------------------------- a displaced connection reports

  /** Connection 1 takes over while connection 0 still serves. */
  function BothServing(s: SessionId, n: NodeId, lease: nat): State {
    var conns := map[0 := Conn(n, Serving, false, true, T, Some(4), None), 1 := Link(n, Serving, Some(7), None)];
    State(Registry(map[n := 1], conns, 8),
          Routed(s, n, lease, Reconciling), map[0 := map[s := lease], 1 := map[s := lease]], {})
  }

  /** On its way there. */
  function SecondBeside(s: SessionId, n: NodeId, lease: nat): State {
    var conns := map[0 := Link(n, Serving, Some(4), None), 1 := Link(n, Offered, None, None)];
    BothServing(s, n, lease).(registry := Registry(map[n := 0], conns, 7))
  }

  lemma SecondArrives(s: SessionId, n: NodeId, lease: nat)
    requires lease > T
    ensures Reachable(Setup, SecondBeside(s, n, lease))
  {
    FirstConnects(s, n, lease);
    BeginOffers(s, n, lease, Reconciling);
    var s5 := FirstServing(s, n, lease);
    var conns := map[0 := Link(n, Serving, Some(4), None), 1 := Link(n, Fresh, None, None)];
    var s6 := s5.(registry := Registry(map[n := 0], conns, 6));
    ReachNext(Setup, s5, Open(1, n, T), s6);
    ReachNext(Setup, s6, Begin(1, T, true), SecondBeside(s, n, lease));
  }

  lemma SecondDisplaces(s: SessionId, n: NodeId, lease: nat)
    requires lease > T
    ensures Reachable(Setup, BothServing(s, n, lease))
  {
    SecondArrives(s, n, lease);
    ReachNext(Setup, SecondBeside(s, n, lease), TakeOver(1), BothServing(s, n, lease));
  }

  /** A displaced connection can undo its successor's recovery: connection 1 has taken over and recovered the session,
      and the report of connection 0, still on its way, denies it; route and row go. Exact guard: ReportDropsIff,
      which does not ask who is current. */
  lemma DisplacedReportDrops(s: SessionId, n: NodeId, lease: nat) returns (before: State, after: State)
    requires lease > T
    ensures Reachable(Setup, before) && Enabled(Setup, before, Report(0, map[s := Missing], T, true))
    ensures after == Next(Setup, before, Report(0, map[s := Missing], T, true))
    ensures !IsCurrent(before.registry, 0) && IsCurrent(before.registry, 1) && 1 in before.recovered
    ensures s in before.table.routes && before.table.routes[s].recovery == Ready && s in before.table.rows
    ensures s !in after.table.routes && s !in after.table.rows
  {
    SecondDisplaces(s, n, lease);
    ReportRecovers(s, n, lease);
    var both := BothServing(s, n, lease);
    before := Next(Setup, both, Report(1, map[s := Recovered], T, true));
    ReachNext(Setup, both, Report(1, map[s := Recovered], T, true), before);
    var t := Routed(s, n, lease, Ready);
    assert before.table == t;
    assert Doomed(t, map[s := lease], map[s := Missing], T) == {s};
    assert (set x | x in {s} && t.routes[x].lease > 0) == {s};
    after := Next(Setup, before, Report(0, map[s := Missing], T, true));
  }
}
