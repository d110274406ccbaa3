/** Every interleaving of connects, takeovers, recovery reports and clean-ups, over the route table. */
module ConnectionRuns {
  import opened Common
  import opened RouteModel
  import opened ConnectionRegistry
  import RouteInvariants

  datatype Policy = Reject | Replace

  /** Constants of a run. */
  datatype Config = Config(policy: Policy, offlineTtl: nat, routeTtl: nat)

  /** offers: the candidates each connection was given; recovered: connections whose report was applied. */
  datatype State = State(
    registry: Registry,
    table: Table,
    offers: map<ConnId, map<SessionId, nat>>,
    recovered: set<ConnId>)

  datatype Action =
    | Open(x: ConnId, nodeId: NodeId, now: Instant)
    | TryClaim(x: ConnId, now: Instant)
    | Begin(x: ConnId, now: Instant, up: bool)
    | TakeOver(x: ConnId)
    | CloseDoomed(x: ConnId)
    | Beat(x: ConnId, now: Instant)
    | Report(x: ConnId, results: map<SessionId, RecoveryStatus>, now: Instant, up: bool)
    | Quit(x: ConnId)
    | Unregister(x: ConnId)
    | MarkRoutes(x: ConnId)
    | Kick(nodeId: NodeId)
    | Routing(op: RouteInvariants.Op)

  predicate Enabled(c: Config, s: State, a: Action) {
    var r := s.registry;
    match a
    case Open(x, _, _) => x !in r.conns
    case TryClaim(x, _) => c.policy.Reject? && At(r, x, Fresh)
    case Begin(x, _, _) => At(r, x, if c.policy.Reject? then Claimed else Fresh)
    case TakeOver(x) => c.policy.Replace? && At(r, x, Offered)
    case CloseDoomed(x) => x in r.conns && r.conns[x].doomed && InRegistry(r.conns[x].phase)
    case Beat(x, _) => At(r, x, Serving)
    case Report(x, results, _, _) =>
      At(r, x, Serving) && x !in s.recovered && x in s.offers && s.offers[x].Keys <= results.Keys
    case Quit(x) => At(r, x, Serving)
    case Unregister(x) => At(r, x, Leaving)
    case MarkRoutes(x) => At(r, x, Marking)
    case Kick(_) => true
    case Routing(op) => RouteInvariants.WellFormed(op) && !op.DoMark? && !op.DoBegin? && !op.DoReport?
  }

  function NextRegistry(c: Config, s: State, a: Action): Registry
    requires Enabled(c, s, a)
  {
    var r := s.registry;
    match a
    case Open(x, n, now) => Put(r, x, Conn(n, Fresh, false, false, now, None, None))
    case TryClaim(x, now) => ClaimNode(r, x, now, c.offlineTtl)
    case Begin(x, now, up) =>
      Move(r, x, if BeginRecovery(s.table, r.conns[x].nodeId, now, c.routeTtl, up).1.None? then Leaving
                 else if c.policy.Reject? then Serving else Offered)
    case TakeOver(x) => Swap(r, x)
    case CloseDoomed(x) => Put(r, x, r.conns[x].(closed := true))
    case Beat(x, now) => Put(r, x, r.conns[x].(heartbeat := now))
    case Report(x, results, now, up) =>
      if ApplyResults(s.table, r.conns[x].nodeId, s.offers[x], results, now, up).1.Applied? then r
      else Move(r, x, Leaving)
    case Quit(x) => Move(r, x, Leaving)
    case Unregister(x) => Remove(r, x)
    case MarkRoutes(x) => Put(r, x, r.conns[x].(phase := Over, closed := true))
    case Kick(n) => Disconnect(r, n)
    case Routing(_) => r
  }

  function NextTable(c: Config, s: State, a: Action): Table
    requires Enabled(c, s, a)
  {
    match a
    case Begin(x, now, up) => BeginRecovery(s.table, s.registry.conns[x].nodeId, now, c.routeTtl, up).0
    case Report(x, results, now, up) =>
      ApplyResults(s.table, s.registry.conns[x].nodeId, s.offers[x], results, now, up).0
    case MarkRoutes(x) => MarkUnavailable(s.table, s.registry.conns[x].nodeId)
    case Routing(op) => RouteInvariants.Apply(s.table, op)
    case _ => s.table
  }

  function NextOffers(c: Config, s: State, a: Action): map<ConnId, map<SessionId, nat>>
    requires Enabled(c, s, a)
  {
    match a
    case Begin(x, now, up) =>
      var offered := BeginRecovery(s.table, s.registry.conns[x].nodeId, now, c.routeTtl, up).1;
      if offered.Some? then s.offers[x := offered.value] else s.offers
    case _ => s.offers
  }

  function NextRecovered(c: Config, s: State, a: Action): set<ConnId>
    requires Enabled(c, s, a)
  {
    match a
    case Report(x, results, now, up) =>
      if ApplyResults(s.table, s.registry.conns[x].nodeId, s.offers[x], results, now, up).1.Applied?
      then s.recovered + {x} else s.recovered
    case _ => s.recovered
  }

  function Next(c: Config, s: State, a: Action): State
    requires Enabled(c, s, a)
  {
    State(Tick(NextRegistry(c, s, a)), NextTable(c, s, a), NextOffers(c, s, a), NextRecovered(c, s, a))
  }

  const Boot := State(NoConnections, RouteInvariants.Empty, map[], {})

  // ---------------------------------------------------------------- the registry keeps its invariant

  lemma ClaimKeeps(r: Registry, x: ConnId, now: Instant, offlineTtl: nat)
    requires Inv(r) && At(r, x, Fresh)
    ensures Inv(Tick(ClaimNode(r, x, now, offlineTtl)))
  {
    assert ConnOk(r.conns[x], r.clock);
    var n := r.conns[x].nodeId;
    if n !in r.sessions || r.sessions[n] !in r.conns {
      EnterKeeps(r, x, Claimed);
    } else {
      var y := r.sessions[n];
      assert EntryOk(r, n);
      if Displaceable(r.conns[y], now, offlineTtl) {
        Shut(r, y, r.conns[y].(closed := true));
        EnterKeeps(Put(r, y, r.conns[y].(closed := true)), x, Claimed);
      } else {
        PutKeeps(r, x, r.conns[x].(phase := Over));
        TickKeeps(Move(r, x, Over));
      }
    }
  }

  /** Closing or dooming a registered connection. */
  lemma Shut(r: Registry, y: ConnId, conn: Conn)
    requires Inv(r) && y in r.conns && InRegistry(r.conns[y].phase)
    requires conn == r.conns[y].(closed := true) || conn == r.conns[y].(doomed := true)
    ensures Inv(Put(r, y, conn))
  {
    assert ConnOk(r.conns[y], r.clock);
    PutKeeps(r, y, conn);
  }

  lemma SwapKeeps(r: Registry, x: ConnId)
    requires Inv(r) && At(r, x, Offered)
    ensures Inv(Tick(Swap(r, x)))
  {
    assert ConnOk(r.conns[x], r.clock);
    var n := r.conns[x].nodeId;
    if n !in r.sessions || r.sessions[n] !in r.conns {
      EnterKeeps(r, x, Serving);
    } else {
      var y := r.sessions[n];
      assert EntryOk(r, n);
      Shut(r, y, r.conns[y].(doomed := true));
      EnterKeeps(Put(r, y, r.conns[y].(doomed := true)), x, Serving);
    }
  }

  lemma KickKeeps(r: Registry, n: NodeId)
    requires Inv(r)
    ensures Inv(Tick(Disconnect(r, n)))
  {
    if n in r.sessions {
      assert EntryOk(r, n);
      var y := r.sessions[n];
      Shut(r, y, r.conns[y].(closed := true));
      DropKeeps(Put(r, y, r.conns[y].(closed := true)), n);
    }
    TickKeeps(Disconnect(r, n));
  }

  lemma UnregisterKeeps(r: Registry, x: ConnId)
    requires Inv(r) && At(r, x, Leaving)
    ensures Inv(Tick(Remove(r, x)))
  {
    if IsCurrent(r, x) {
      LeaveKeeps(r, x);
    } else {
      assert ConnOk(r.conns[x], r.clock);
      PutKeeps(r, x, r.conns[x].(phase := Over, closed := true));
      TickKeeps(Remove(r, x));
    }
  }

  /** A connection's own progress, between registration and leaving. */
  lemma OwnMoveKeeps(r: Registry, x: ConnId, conn: Conn)
    requires Inv(r) && Harmless(r, x, conn)
    ensures Inv(Tick(Put(r, x, conn)))
  {
    PutKeeps(r, x, conn);
    TickKeeps(Put(r, x, conn));
  }

  /** An unmoved registered connection is current, or closed or doomed. */
  lemma Standing(r: Registry, x: ConnId)
    requires Inv(r) && x in r.conns
    ensures ConnOk(r.conns[x], r.clock) && DisplacedOk(r, x)
    ensures IsCurrent(r, x) ==> EntryOk(r, r.conns[x].nodeId)
  {
  }

  lemma RegistryKeeps(c: Config, s: State, a: Action)
    requires Inv(s.registry) && Enabled(c, s, a)
    ensures Inv(Next(c, s, a).registry)
  {
    var r := s.registry;
    match a
    case Open(x, n, now) => OwnMoveKeeps(r, x, Conn(n, Fresh, false, false, now, None, None));
    case TryClaim(x, now) => ClaimKeeps(r, x, now, c.offlineTtl);
    case Begin(x, now, up) =>
      Standing(r, x);
      var u := NextRegistry(c, s, a);
      OwnMoveKeeps(r, x, u.conns[x]);
    case TakeOver(x) => SwapKeeps(r, x);
    case CloseDoomed(x) => Shut(r, x, r.conns[x].(closed := true)); TickKeeps(Put(r, x, r.conns[x].(closed := true)));
    case Beat(x, now) =>
      Standing(r, x);
      OwnMoveKeeps(r, x, r.conns[x].(heartbeat := now));
    case Report(x, results, now, up) =>
      Standing(r, x);
      TickKeeps(r);
      OwnMoveKeeps(r, x, r.conns[x].(phase := Leaving));
    case Quit(x) =>
      Standing(r, x);
      OwnMoveKeeps(r, x, r.conns[x].(phase := Leaving));
    case Unregister(x) => UnregisterKeeps(r, x);
    case MarkRoutes(x) =>
      Standing(r, x);
      OwnMoveKeeps(r, x, r.conns[x].(phase := Over, closed := true));
    case Kick(n) => KickKeeps(r, n);
    case Routing(_) => TickKeeps(r);
  }

  // ---------------------------------------------------------------- who may replace whom

  /** A registered connection y loses its place only by its own clean-up, by an administrator, by a
      takeover of its own worker under the replace policy, or, under the reject policy, by a newcomer of that
      worker when it is closed or its heartbeat is overdue. In particular an older connection's clean-up never
      evicts it. */
  lemma DisplacedOnlyBy(c: Config, s: State, a: Action, n: NodeId)
    requires Inv(s.registry) && Enabled(c, s, a) && n in s.registry.sessions
    requires Loses(s.registry, Next(c, s, a).registry, n)
    ensures var y := s.registry.sessions[n];
      || a == Unregister(y)
      || a == Kick(n)
      || (a.TakeOver? && c.policy.Replace? && At(s.registry, a.x, Offered) && s.registry.conns[a.x].nodeId == n)
      || (a.TryClaim? && c.policy.Reject? && At(s.registry, a.x, Fresh) && s.registry.conns[a.x].nodeId == n
          && Displaceable(s.registry.conns[y], a.now, c.offlineTtl))
  {
    assert EntryOk(s.registry, n);
    if !a.Unregister? && !a.Kick? && !a.TakeOver? && !a.TryClaim? {
      RegistryStands(c, s, a);
    }
  }

  /** The place of node n is empty, or somebody else's. */
  predicate Loses(r: Registry, u: Registry, n: NodeId)
    requires n in r.sessions
  {
    n !in u.sessions || u.sessions[n] != r.sessions[n]
  }

  lemma RegistryStands(c: Config, s: State, a: Action)
    requires Enabled(c, s, a) && !a.Unregister? && !a.Kick? && !a.TakeOver? && !a.TryClaim?
    ensures Next(c, s, a).registry.sessions == s.registry.sessions
  {
  }

  // ---------------------------------------------------------------- who may mark routes unavailable

  lemma OnlyMarkMakesUnavailable(t: Table, op: RouteInvariants.Op, s: SessionId)
    requires RouteInvariants.WellFormed(op) && !op.DoMark? && s in t.routes && t.routes[s].recovery != Unavailable
    ensures s in RouteInvariants.Apply(t, op).routes ==> RouteInvariants.Apply(t, op).routes[s].recovery != Unavailable
  {
  }

  /** The mark a departed connection has yet to make changes this route: it drops a provisional one and makes any
      other unavailable. */
  predicate MarkHits(s: State, x: ConnId, session: SessionId)
    requires x in s.registry.conns
  {
    && session in s.table.routes && s.table.routes[session].nodeId == s.registry.conns[x].nodeId
    && (Provisional(s.table.routes[session]) || s.table.routes[session].recovery != Unavailable)
  }

  /** Exactly what a mark does to a route and its row. */
  lemma MarkChangesIff(c: Config, s: State, x: ConnId, session: SessionId)
    requires Enabled(c, s, MarkRoutes(x)) && session in s.table.routes
    ensures var (r, u) := (s.table.routes[session], Next(c, s, MarkRoutes(x)).table);
      && (RouteInvariants.At(u, session) != RouteInvariants.At(s.table, session) <==> MarkHits(s, x, session))
      && (MarkHits(s, x, session) ==>
            if Provisional(r) then session !in u.routes
            else session in u.routes && u.routes[session] == r.(recovery := Unavailable))
  {
  }

  /** Connection y has taken the place that x left. */
  predicate Succeeds(r: Registry, y: ConnId, x: ConnId)
    requires x in r.conns
  {
    && y != x && IsCurrent(r, y) && r.conns[y].nodeId == r.conns[x].nodeId
    && r.conns[y].entered.Some? && r.conns[x].left.Some? && r.conns[y].entered.value > r.conns[x].left.value
  }

  /** A mark harms a successor if and only if the worker is registered again when it is made: whoever is
      registered then entered after the marking connection left. */
  lemma MarkHitsSuccessorIff(c: Config, s: State, x: ConnId)
    requires Inv(s.registry) && Enabled(c, s, MarkRoutes(x))
    ensures var r := s.registry;
      (exists y :: Succeeds(r, y, x)) <==> r.conns[x].nodeId in r.sessions
    ensures var r := s.registry; r.conns[x].nodeId in r.sessions ==> Succeeds(r, r.sessions[r.conns[x].nodeId], x)
  {
    var r, n := s.registry, s.registry.conns[x].nodeId;
    assert ConnOk(r.conns[x], r.clock) && LateOk(r, x);
    if n in r.sessions {
      assert EntryOk(r, n);
      assert Succeeds(r, r.sessions[n], x);
    }
  }

  /** A route becomes unavailable if and only if a departed connection of its worker marks it while it is confirmed. */
  lemma BecomesUnavailableIff(c: Config, s: State, a: Action, session: SessionId)
    requires Enabled(c, s, a)
    requires session in s.table.routes && s.table.routes[session].recovery != Unavailable
    ensures var u := Next(c, s, a).table;
      session in u.routes && u.routes[session].recovery == Unavailable <==>
        a.MarkRoutes? && MarkHits(s, a.x, session) && !Provisional(s.table.routes[session])
  {
    if a.Routing? {
      OnlyMarkMakesUnavailable(s.table, a.op, session);
    }
  }

  // ---------------------------------------------------------------- late reports

  /** The report drops this session: the worker still owns every candidate, denies or has outlived this one, and the
      store can delete the rows that have to go. */
  predicate ReportDrops(s: State, a: Action, session: SessionId)
    requires a.Report? && a.x in s.registry.conns && a.x in s.offers && s.offers[a.x].Keys <= a.results.Keys
  {
    var doomed := Doomed(s.table, s.offers[a.x], a.results, a.now);
    && StillOwned(s.table, s.registry.conns[a.x].nodeId, s.offers[a.x])
    && session in doomed
    && (a.up || forall x | x in doomed :: s.table.routes[x].lease == 0)
  }

  /** Which sessions a report drops; nobody asks whether the reporting connection is still current. */
  lemma ReportDropsIff(c: Config, s: State, a: Action, session: SessionId)
    requires Enabled(c, s, a) && a.Report? && session in s.table.routes
    ensures session !in Next(c, s, a).table.routes <==> ReportDrops(s, a, session)
  {
    var doomed := Doomed(s.table, s.offers[a.x], a.results, a.now);
    var leased := set x | x in doomed && s.table.routes[x].lease > 0;
    assert forall x | x in doomed && s.table.routes[x].lease > 0 :: x in leased;
    assert (forall x | x in doomed :: s.table.routes[x].lease == 0) ==> leased == {};
  }

  // ---------------------------------------------------------------- whole runs

  ghost predicate IsRun(c: Config, run: seq<State>, actions: seq<Action>) {
    && |run| == |actions| + 1 && run[0] == Boot
    && forall i | 0 <= i < |actions| :: Enabled(c, run[i], actions[i]) && run[i + 1] == Next(c, run[i], actions[i])
  }

  lemma RunStep(c: Config, run: seq<State>, actions: seq<Action>, i: nat)
    requires IsRun(c, run, actions) && i < |actions|
    ensures Enabled(c, run[i], actions[i]) && run[i + 1] == Next(c, run[i], actions[i])
  {
  }

  /** Under either policy, in every state of every run. */
  lemma {:induction false} RegistryInvOverRuns(c: Config, run: seq<State>, actions: seq<Action>, i: nat)
    requires IsRun(c, run, actions) && i < |run|
    ensures Inv(run[i].registry)
  {
    if i > 0 {
      RegistryInvOverRuns(c, run, actions, i - 1);
      RunStep(c, run, actions, i - 1);
      RegistryKeeps(c, run[i - 1], actions[i - 1]);
    }
  }

  ghost predicate Reachable(c: Config, s: State) {
    exists run: seq<State>, actions: seq<Action> :: IsRun(c, run, actions) && run[|run| - 1] == s
  }

  lemma BootReachable(c: Config)
    ensures Reachable(c, Boot)
  {
    assert IsRun(c, [Boot], []);
  }

  lemma ReachNext(c: Config, s: State, a: Action, u: State)
    requires Reachable(c, s) && Enabled(c, s, a) && Next(c, s, a) == u
    ensures Reachable(c, u)
  {
    var run: seq<State>, actions: seq<Action> :| IsRun(c, run, actions) && run[|run| - 1] == s;
    var longer, more := run + [u], actions + [a];
    forall i | 0 <= i < |more| ensures Enabled(c, longer[i], more[i]) && longer[i + 1] == Next(c, longer[i], more[i]) {
      if i < |actions| {
        RunStep(c, run, actions, i);
      }
    }
    assert IsRun(c, longer, more);
  }
}
