/** Main results about dispatching: shared reservations, stale holders, lost routes, retry, pinning. */
module DispatchTheorems {
  import opened Common
  import opened RouteModel
  import opened RouteInvariants
  import opened Dispatch
  import opened DispatchInvariants

  // ---------------------------------------------------------------- shared reservations

  /** A release that removes a route is made by its only remaining holder. */
  lemma ReleaseRemovesOnlyWhenAlone(s: State, x: DispatchId, n: NodeId)
    requires SystemInv(s) && x in s.active
    requires Release(s.table, s.active[x].session, n, HeldId(s.active[x])).1 == Removed
    ensures Holders(s.active, s.active[x].session, HeldId(s.active[x])) == {x}
  {
    var holders := Holders(s.active, s.active[x].session, HeldId(s.active[x]));
    assert x in holders;
    var others := holders - {x};
    assert holders == others + {x};
    assert |others| == 0;
  }

  // ---------------------------------------------------------------- losing a route

  /** The step drops the session's route without looking at reservation ids: a slot could not be taken
      because the worker is gone. */
  predicate BlindClear(d: Dispatch, m: Move) {
    && m.TakeSlot? && m.slot.WorkerGone?
    && ((d.pc.Holding? && d.pc.grip.reservationId != 0) || d.pc.Following?)
    && !Tried(d, d.pc.grip.nodeId)
  }

  /** Clearing at the node a dispatch remembers takes the route away. */
  predicate Clears(t: Table, d: Dispatch, up: bool)
    requires GripOf(d).Some?
  {
    && d.session in t.routes && t.routes[d.session].nodeId == GripOf(d).value.nodeId
    && (t.routes[d.session].lease == 0 || up)
  }

  /** The pruning at the top of a pick takes this route. */
  predicate Cleans(d: Dispatch, m: Move, r: Route) {
    && d.pc.Picking? && d.target.None? && m.Clean? && m.prune.Some?
    && Prunable(r, m.prune.value.now, m.prune.value.ttl, m.prune.value.up)
  }

  /** The step gives a reservation back. */
  predicate GivesBack(d: Dispatch, m: Move) {
    || (d.pc.Running? && m.End? && (m.ending.NotSent? || m.ending.AtCapacity? || m.ending.SessionNotFound?))
    || ((d.pc.Holding? || d.pc.Following?) && m.TakeSlot? && (Tried(d, d.pc.grip.nodeId) || m.slot.WorkerFull?))
  }

  /** The guards under which a dispatch drops its session's route: pruning takes it, its lease is over, the
      worker denies the session, the last use of the reservation is given back, or, blindly, the worker is
      gone. */
  predicate DropsRoute(t: Table, d: Dispatch, m: Move)
    requires d.session in t.routes
  {
    var r := t.routes[d.session];
    || Cleans(d, m, r)
    || (d.pc.Looking? && m.Look? && Expired(r, m.now) && m.up)
    || (d.pc.Running? && m.End? && m.ending.SessionNotFound? && d.pc.grip == Grip(r.nodeId, 0) &&
        (r.lease == 0 || m.ending.up))
    || (GivesBack(d, m) && d.pc.grip == Grip(r.nodeId, r.reservationId) && Provisional(r) && r.uses <= 1)
    || (BlindClear(d, m) && Clears(t, d, m.up))
  }

  /** A dispatch step loses its session's route, provisional or confirmed, exactly under those guards. */
  lemma RouteLostIff(t: Table, d: Dispatch, m: Move)
    requires Inv(t) && Step(t, d, m).Some? && d.session in t.routes
    ensures d.session !in Step(t, d, m).value.0.routes <==> DropsRoute(t, d, m)
  {
    StepIsOp(t, d, m);
    if d.pc.Running? {
      EndLosesIff(t, d, m);
    } else {
      PickLosesIff(t, d, m);
    }
  }

  lemma EndLosesIff(t: Table, d: Dispatch, m: Move)
    requires Inv(t) && d.pc.Running? && m.End? && d.session in t.routes
    ensures d.session !in EndAttempt(t, d, d.pc.grip, m.ending).0.routes <==> DropsRoute(t, d, m)
  {
  }

  lemma PickLosesIff(t: Table, d: Dispatch, m: Move)
    requires Inv(t) && !d.pc.Running? && Step(t, d, m).Some? && d.session in t.routes
    ensures d.session !in Step(t, d, m).value.0.routes <==> DropsRoute(t, d, m)
  {
  }

  /** So a confirmed one goes by pruning, by the end of its lease, by denial or blindly, but never because a
      dispatch gives its reservation back. */
  lemma ConfirmedLostIff(t: Table, d: Dispatch, m: Move)
    requires Inv(t) && Step(t, d, m).Some?
    requires d.session in t.routes && !Provisional(t.routes[d.session])
    ensures var r := t.routes[d.session];
      d.session !in Step(t, d, m).value.0.routes <==>
        || Cleans(d, m, r)
        || (d.pc.Looking? && m.Look? && Expired(r, m.now) && m.up)
        || (d.pc.Running? && m.End? && m.ending.SessionNotFound? && d.pc.grip == Grip(r.nodeId, 0) &&
            (r.lease == 0 || m.ending.up))
        || (BlindClear(d, m) && Clears(t, d, m.up))
  {
    RouteLostIff(t, d, m);
  }

  /** The operations on a single session. */
  predicate OnSession(op: Op, s: SessionId) {
    && (op.DoReserve? || op.DoClaim? || op.DoConfirm? || op.DoCommit? || op.DoRelease? || op.DoClear? || op.DoSnapshot?)
    && op.s == s
  }

  lemma OpIsLocal(t: Table, op: Op, own: SessionId, s: SessionId)
    requires OnSession(op, own) && own != s
    ensures At(Apply(t, op), s) == At(t, s)
  {
  }

  lemma OwnSessionOnly(d: Dispatch, m: Move)
    ensures OpOf(d, m).Some? ==> OnSession(OpOf(d, m).value, d.session) || (OpOf(d, m).value.DoPrune? && m.Clean?)
  {
  }

  lemma PrunedOrNot(t: Table, p: Pruning, s: SessionId)
    requires Inv(t)
    ensures var u := Prune(t, p.now, p.ttl, p.up);
      if s in t.routes && Prunable(t.routes[s], p.now, p.ttl, p.up) then At(u, s) == Cell(None, None)
      else At(u, s) == At(t, s)
  {
    assert CellOk(At(t, s), t.lastReservation);
  }

  /** Another session changes only by the pruning at the top of a pick, exactly when its route is due, and then
      both its route and its row are gone. */
  lemma OtherSessionsOnlyPruned(t: Table, d: Dispatch, m: Move, s: SessionId)
    requires Inv(t) && Step(t, d, m).Some? && s != d.session
    ensures var u := Step(t, d, m).value.0;
      if s in t.routes && Cleans(d, m, t.routes[s]) then At(u, s) == Cell(None, None) else At(u, s) == At(t, s)
  {
    StepIsOp(t, d, m);
    OwnSessionOnly(d, m);
    if OpOf(d, m).Some? {
      if m.Clean? {
        PrunedOrNot(t, m.prune.value, s);
      } else {
        OpIsLocal(t, OpOf(d, m).value, d.session, s);
      }
    }
  }

  // ---------------------------------------------------------------- retry

  /** In every reachable state: the workers a dispatch tried are distinct and no more than were online when it
      began, or one; only the creation of a session is tried more than once;
      all attempts but the last were capacity refusals of a provisional route; and a dispatch that ends
      after refusals only, with its context alive, returns the last refusal. */
  lemma RetryDiscipline(run: seq<State>, actions: seq<Action>, i: nat, x: DispatchId)
    requires IsRun(run, actions) && run[0] == Boot && i < |run| && x in run[i].active
    ensures var d := run[i].active[x];
      && Distinct(d.attempted)
      && |d.attempted| <= (if d.kind.Exec? && d.online > 1 then d.online else 1)
      && |d.refused| <= |d.attempted| <= |d.refused| + 1
      && (forall k | 0 <= k < |d.refused| :: d.attempted[k] == d.refused[k].nodeId && d.refused[k].reservationId != 0)
      && (d.pc.Done? && |d.attempted| == |d.refused| > 0 && d.pc.result != ContextError ==>
            d.pc.result == CapacityRefusal(d.refused[|d.refused| - 1].nodeId))
  {
    BootInv();
    RunsKeep(run, actions, i);
    var d := run[i].active[x];
    assert Trail(d);
    assert d.attempted[..|d.refused|] == Nodes(d.refused);
    forall k | 0 <= k < |d.refused| ensures d.attempted[k] == d.refused[k].nodeId {
      assert d.attempted[..|d.refused|][k] == Nodes(d.refused)[k];
    }
  }

  // ---------------------------------------------------------------- pinning

  /** The ways a dispatch ends without an attempt. */
  predicate NoAttempt(result: Result) { result.ContextError? || result.PickErr? || result.CapacityRefusal? }

  /** The session has a confirmed route at n and the dispatch has not been led anywhere else. */
  predicate PinnedTo(t: Table, d: Dispatch, n: NodeId) {
    && d.session in t.routes && t.routes[d.session].nodeId == n && !Provisional(t.routes[d.session])
    && (d.target.Some? ==> d.target.value == n)
    && match d.pc {
         case Picking => true
         case Looking => true
         case Claiming => true
         case Holding(grip) => grip == Grip(n, 0)
         case Running(grip) => grip == Grip(n, 0)
         case PickFailed(_) => true
         case Done(result) => NoAttempt(result)
         case _ => false
       }
  }

  /** The moves of one dispatch, alone, until its attempt starts or fails to. */
  function Solo(t: Table, d: Dispatch, moves: seq<Move>): Option<(Table, Dispatch)>
    decreases |moves|
  {
    if moves == [] || d.pc.Running? || d.pc.Done? then
      Some((t, d))
    else
      var r := Step(t, d, moves[0]);
      if r.None? then None else Solo(r.value.0, r.value.1, moves[1..])
  }

  /** Pruning takes the route. */
  predicate PrunedBy(r: Route, m: Move) {
    m.Clean? && m.prune.Some? && Prunable(r, m.prune.value.now, m.prune.value.ttl, m.prune.value.up)
  }

  /** The lookup finds the lease over and can delete the route. */
  predicate LapsesAt(r: Route, m: Move) { m.Look? && Expired(r, m.now) && m.up }

  /** The route outlives the start of the pick: the pruning does not take it and the lookup does not delete it. */
  predicate Spared(r: Route, d: Dispatch, moves: seq<Move>) {
    match d.pc
    case Picking =>
      |moves| > 0 && moves[0].Clean? ==> !PrunedBy(r, moves[0]) && (|moves| > 1 ==> !LapsesAt(r, moves[1]))
    case Looking => |moves| > 0 ==> !LapsesAt(r, moves[0])
    case _ => true
  }

  /** As far as the first move goes. */
  predicate SparedBy(r: Route, d: Dispatch, m: Move) {
    (d.pc.Picking? ==> !PrunedBy(r, m)) && (d.pc.Looking? ==> !LapsesAt(r, m))
  }

  lemma PinnedStep(t: Table, d: Dispatch, n: NodeId, m: Move)
    requires Inv(t) && PinnedTo(t, d, n) && !d.pc.Running? && !d.pc.Done? && Step(t, d, m).Some?
    requires SparedBy(t.routes[d.session], d, m)
    ensures var (u, e) := Step(t, d, m).value;
      && e.session == d.session && PinnedTo(u, e, n)
      && u.routes[d.session] == t.routes[d.session].(lastUsed := u.routes[d.session].lastUsed)
      && At(u, d.session).row == At(t, d.session).row
      && !e.pc.Picking? && (e.pc.Looking? ==> m.Clean? && u.routes[d.session] == t.routes[d.session])
  {
    assert CellOk(At(t, d.session), t.lastReservation);
  }

  /** The session has no route and the dispatch is on its way to a fresh one. */
  predicate Adrift(t: Table, d: Dispatch) {
    && d.session !in t.routes
    && (d.pc.Looking? || d.pc.Claiming? || d.pc.Choosing? || d.pc.Reserving? || d.pc.PickFailed? || d.pc.Done?)
  }

  lemma LossStep(t: Table, d: Dispatch, n: NodeId, m: Move)
    requires PinnedTo(t, d, n) && !d.pc.Running? && !d.pc.Done? && Step(t, d, m).Some?
    requires !SparedBy(t.routes[d.session], d, m)
    ensures Adrift(Step(t, d, m).value.0, Step(t, d, m).value.1)
  {
  }

  lemma AdriftStep(t: Table, d: Dispatch, n: NodeId, m: Move)
    requires Adrift(t, d) && !d.pc.Done? && Step(t, d, m).Some?
    ensures var (u, e) := Step(t, d, m).value; Adrift(u, e) || (e.pc.Running? && !PinnedTo(u, e, n))
  {
  }

  lemma {:induction false} AdriftStays(t: Table, d: Dispatch, n: NodeId, moves: seq<Move>)
    requires Adrift(t, d) && Solo(t, d, moves).Some?
    ensures !PinnedTo(Solo(t, d, moves).value.0, Solo(t, d, moves).value.1, n)
    decreases |moves|
  {
    if !(moves == [] || d.pc.Done?) {
      var (u, e) := Step(t, d, moves[0]).value;
      AdriftStep(t, d, n, moves[0]);
      if Adrift(u, e) {
        AdriftStays(u, e, n, moves[1..]);
      }
    }
  }

  lemma {:induction false} SparedStays(t: Table, d: Dispatch, n: NodeId, moves: seq<Move>)
    requires Inv(t) && PinnedTo(t, d, n) && Solo(t, d, moves).Some? && Spared(t.routes[d.session], d, moves)
    ensures var (u, e) := Solo(t, d, moves).value;
      && e.session == d.session && PinnedTo(u, e, n)
      && u.routes[d.session] == t.routes[d.session].(lastUsed := u.routes[d.session].lastUsed)
      && At(u, d.session).row == At(t, d.session).row
    decreases |moves|
  {
    if !(moves == [] || d.pc.Running? || d.pc.Done?) {
      var (u, e) := Step(t, d, moves[0]).value;
      PinnedStep(t, d, n, moves[0]);
      StepKeepsTable(t, d, moves[0]);
      assert |moves| > 1 ==> moves[1..][0] == moves[1];
      SparedStays(u, e, n, moves[1..]);
    }
  }

  /** Without interference, a dispatch for a session with a confirmed route stays pinned to that route's worker - it
      runs there, or ends without an attempt, and leaves the binding, its lease and its row as they were - if and
      only if the start of its pick spares the route. */
  lemma PinnedIff(t: Table, d: Dispatch, n: NodeId, moves: seq<Move>)
    requires Inv(t) && PinnedTo(t, d, n) && Solo(t, d, moves).Some?
    ensures var (u, e) := Solo(t, d, moves).value;
      && (PinnedTo(u, e, n) <==> Spared(t.routes[d.session], d, moves))
      && (PinnedTo(u, e, n) ==>
            && e.session == d.session
            && u.routes[d.session] == t.routes[d.session].(lastUsed := u.routes[d.session].lastUsed)
            && At(u, d.session).row == At(t, d.session).row)
  {
    var r := t.routes[d.session];
    if Spared(r, d, moves) {
      SparedStays(t, d, n, moves);
    } else {
      var (u, e) := Step(t, d, moves[0]).value;
      if SparedBy(r, d, moves[0]) {
        PinnedStep(t, d, n, moves[0]);
        var (v, f) := Step(u, e, moves[1]).value;
        assert moves[1..][0] == moves[1];
        LossStep(u, e, n, moves[1]);
        AdriftStays(v, f, n, moves[1..][1..]);
      } else {
        LossStep(t, d, n, moves[0]);
        AdriftStays(u, e, n, moves[1..]);
      }
    }
  }
}
