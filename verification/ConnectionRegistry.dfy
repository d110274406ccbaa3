/** The registry of worker connections: connect, takeover and clean-up, each a sequence of separate
    critical sections over the session registry. */
module ConnectionRegistry {
  import opened Common
  import opened RouteModel

  type ConnId = nat

  /** Fresh: hello accepted, nothing shared yet. Claimed: registered, recovery not begun (Reject only).
      Offered: recovery begun, not registered (Replace only). Serving: the frame loop. Leaving: the
      handler is returning. Marking: it has unregistered itself and is about to mark its routes. */
  datatype Phase = Fresh | Claimed | Offered | Serving | Leaving | Marking | Over

  /** entered and left: when the connection was put into, and took itself out of, the registry.
      doomed: replaced, and about to be closed by its successor. */
  datatype Conn = Conn(
    nodeId: NodeId,
    phase: Phase,
    closed: bool,
    doomed: bool,
    heartbeat: Instant,
    entered: Option<nat>,
    left: Option<nat>)

  datatype Registry = Registry(sessions: map<NodeId, ConnId>, conns: map<ConnId, Conn>, clock: nat)

  predicate At(r: Registry, x: ConnId, phase: Phase) { x in r.conns && r.conns[x].phase == phase }

  predicate IsCurrent(r: Registry, x: ConnId) {
    x in r.conns && r.conns[x].nodeId in r.sessions && r.sessions[r.conns[x].nodeId] == x
  }

  predicate InRegistry(p: Phase) { p.Claimed? || p.Serving? || p.Leaving? }

  // ---------------------------------------------------------------- critical sections

  function Put(r: Registry, x: ConnId, conn: Conn): Registry { r.(conns := r.conns[x := conn]) }

  function Tick(r: Registry): Registry { r.(clock := r.clock + 1) }

  function Move(r: Registry, x: ConnId, phase: Phase): Registry
    requires x in r.conns
  {
    Put(r, x, r.conns[x].(phase := phase))
  }

  function Enter(r: Registry, x: ConnId, phase: Phase): Registry
    requires x in r.conns
  {
    Put(r, x, r.conns[x].(phase := phase, entered := Some(r.clock))).(sessions := r.sessions[r.conns[x].nodeId := x])
  }

  /** The guard under which the reject policy lets a newcomer in over the current connection. */
  predicate Displaceable(y: Conn, now: Instant, offlineTtl: nat) {
    y.closed || now - y.heartbeat > offlineTtl
  }

  /** claimSessionIfAvailable, then return (Over) or go on (Claimed). */
  function ClaimNode(r: Registry, x: ConnId, now: Instant, offlineTtl: nat): Registry
    requires x in r.conns
  {
    var n := r.conns[x].nodeId;
    if n !in r.sessions || r.sessions[n] !in r.conns then
      Enter(r, x, Claimed)
    else
      var y := r.sessions[n];
      if !Displaceable(r.conns[y], now, offlineTtl) then Move(r, x, Over)
      else Enter(Put(r, y, r.conns[y].(closed := true)), x, Claimed)
  }

  function Swap(r: Registry, x: ConnId): Registry
    requires x in r.conns
  {
    var n := r.conns[x].nodeId;
    if n !in r.sessions || r.sessions[n] !in r.conns then
      Enter(r, x, Serving)
    else
      var y := r.sessions[n];
      Enter(Put(r, y, r.conns[y].(doomed := true)), x, Serving)
  }

  /** removeSession: only the connection that is still current unregisters itself, and only then are
      the routes of its node marked, in a later critical section. */
  function Remove(r: Registry, x: ConnId): Registry
    requires x in r.conns
  {
    if IsCurrent(r, x) then
      Put(r, x, r.conns[x].(phase := Marking, left := Some(r.clock))).(sessions := r.sessions - {r.conns[x].nodeId})
    else
      Put(r, x, r.conns[x].(phase := Over, closed := true))
  }

  /** disconnectWorker: an administrator unregisters and closes whatever is current. */
  function Disconnect(r: Registry, n: NodeId): Registry {
    if n !in r.sessions then r
    else if r.sessions[n] !in r.conns then r.(sessions := r.sessions - {n})
    else Put(r, r.sessions[n], r.conns[r.sessions[n]].(closed := true)).(sessions := r.sessions - {n})
  }

  // ---------------------------------------------------------------- the invariant

  /** What holds of one connection on its own. */
  predicate ConnOk(conn: Conn, clock: nat) {
    && (conn.entered.Some? ==> conn.entered.value < clock)
    && (conn.left.Some? ==> conn.left.value < clock && (conn.phase.Marking? || conn.phase.Over?))
    && (conn.phase.Marking? ==> conn.left.Some?)
    && (conn.phase.Fresh? || conn.phase.Offered? ==> conn.entered.None?)
  }

  /** The registry points at a connection of that node which entered it and has not left it. */
  predicate EntryOk(r: Registry, n: NodeId)
    requires n in r.sessions
  {
    var x := r.sessions[n];
    x in r.conns && r.conns[x].nodeId == n && InRegistry(r.conns[x].phase) && r.conns[x].entered.Some?
  }

  /** Whoever is current while x is about to mark its routes came after x left. */
  predicate LateOk(r: Registry, x: ConnId)
    requires x in r.conns
  {
    var n := r.conns[x].nodeId;
    r.conns[x].phase.Marking? && r.conns[x].left.Some? && n in r.sessions && r.sessions[n] in r.conns &&
    r.conns[r.sessions[n]].entered.Some? ==>
      r.conns[r.sessions[n]].entered.value > r.conns[x].left.value
  }

  /** A connection that entered and is no longer current is closed or about to be. */
  predicate DisplacedOk(r: Registry, x: ConnId)
    requires x in r.conns
  {
    r.conns[x].entered.Some? && InRegistry(r.conns[x].phase) && !IsCurrent(r, x) ==>
        r.conns[x].closed || r.conns[x].doomed
  }

  ghost predicate Inv(r: Registry) {
    && (forall x | x in r.conns :: ConnOk(r.conns[x], r.clock) && LateOk(r, x) && DisplacedOk(r, x))
    && (forall n | n in r.sessions :: EntryOk(r, n))
  }

  const NoConnections := Registry(map[], map[], 0)

  /** Changing a connection without touching the registry map. */
  predicate Harmless(r: Registry, x: ConnId, conn: Conn) {
    if x !in r.conns then
      conn.phase.Fresh? && conn.entered.None? && conn.left.None?
    else
      && conn.nodeId == r.conns[x].nodeId && conn.entered == r.conns[x].entered && conn.left == r.conns[x].left
      && conn.phase != Marking && conn.phase != Fresh && (conn.phase.Offered? ==> r.conns[x].phase.Fresh?)
      && (r.conns[x].left.Some? ==> conn.phase.Over?)
      && (IsCurrent(r, x) ==> InRegistry(conn.phase))
      && (conn.entered.Some? && InRegistry(conn.phase) && !IsCurrent(r, x) ==> conn.closed || conn.doomed)
  }

  lemma PutKeeps(r: Registry, x: ConnId, conn: Conn)
    requires Inv(r) && Harmless(r, x, conn)
    ensures Inv(Put(r, x, conn))
  {
    var u := Put(r, x, conn);
    forall n | n in u.sessions ensures EntryOk(u, n) {
      assert EntryOk(r, n);
    }
    forall y | y in u.conns ensures ConnOk(u.conns[y], u.clock) && LateOk(u, y) && DisplacedOk(u, y) {
      if y in r.conns {
        assert ConnOk(r.conns[y], r.clock) && LateOk(r, y) && DisplacedOk(r, y);
        var n := r.conns[y].nodeId;
        assert n in r.sessions ==> EntryOk(r, n);
      } else {
        assert conn.nodeId in r.sessions ==> EntryOk(r, conn.nodeId);
      }
    }
  }

  lemma TickKeeps(r: Registry)
    requires Inv(r)
    ensures Inv(Tick(r))
  {
    var u := Tick(r);
    forall n | n in u.sessions ensures EntryOk(u, n) {
      assert EntryOk(r, n);
    }
    forall y | y in u.conns ensures ConnOk(u.conns[y], u.clock) && LateOk(u, y) && DisplacedOk(u, y) {
      assert ConnOk(r.conns[y], r.clock) && LateOk(r, y) && DisplacedOk(r, y);
    }
  }

  /** The current connection of x's node, if any, is closed or doomed. */
  predicate Cleared(r: Registry, x: ConnId)
    requires x in r.conns
  {
    var n := r.conns[x].nodeId;
    n in r.sessions && r.sessions[n] in r.conns ==> r.conns[r.sessions[n]].closed || r.conns[r.sessions[n]].doomed
  }

  lemma EnterKeeps(r: Registry, x: ConnId, phase: Phase)
    requires Inv(r) && x in r.conns && r.conns[x].entered.None? && r.conns[x].left.None? && Cleared(r, x)
    requires phase.Claimed? || phase.Serving?
    ensures Inv(Tick(Enter(r, x, phase)))
  {
    var u := Tick(Enter(r, x, phase));
    forall n | n in u.sessions ensures EntryOk(u, n) {
      assert n in r.sessions ==> EntryOk(r, n);
    }
    forall y | y in u.conns ensures ConnOk(u.conns[y], u.clock) && LateOk(u, y) && DisplacedOk(u, y) {
      assert ConnOk(r.conns[y], r.clock) && LateOk(r, y) && DisplacedOk(r, y);
    }
  }

  lemma LeaveKeeps(r: Registry, x: ConnId)
    requires Inv(r) && IsCurrent(r, x)
    ensures Inv(Tick(Remove(r, x)))
  {
    var u := Tick(Remove(r, x));
    forall n | n in u.sessions ensures EntryOk(u, n) {
      assert EntryOk(r, n);
    }
    forall y | y in u.conns ensures ConnOk(u.conns[y], u.clock) && LateOk(u, y) && DisplacedOk(u, y) {
      assert ConnOk(r.conns[y], r.clock) && LateOk(r, y) && DisplacedOk(r, y);
      var n := r.conns[y].nodeId;
      assert n in r.sessions ==> EntryOk(r, n);
    }
  }

  lemma DropKeeps(r: Registry, n: NodeId)
    requires Inv(r) && n in r.sessions && r.sessions[n] in r.conns && r.conns[r.sessions[n]].closed
    ensures Inv(r.(sessions := r.sessions - {n}))
  {
    var u := r.(sessions := r.sessions - {n});
    forall m | m in u.sessions ensures EntryOk(u, m) {
      assert EntryOk(r, m);
    }
    forall y | y in u.conns ensures ConnOk(u.conns[y], u.clock) && LateOk(u, y) && DisplacedOk(u, y) {
      assert ConnOk(r.conns[y], r.clock) && LateOk(r, y) && DisplacedOk(r, y);
    }
  }
}
