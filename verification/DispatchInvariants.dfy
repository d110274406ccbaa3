/** What every interleaving of dispatches, clean-up, reconnects and restarts keeps. */
module DispatchInvariants {
  import opened Common
  import opened RouteModel
  import opened RouteInvariants
  import opened Dispatch

  // ---------------------------------------------------------------- a step is one table operation

  function SlotOp(d: Dispatch, grip: Grip, clears: bool, slot: Slot, up: bool): Option<Op> {
    if Tried(d, grip.nodeId) || slot.WorkerFull? then
      Some(DoRelease(d.session, grip.nodeId, grip.reservationId))
    else if slot.WorkerGone? && clears then
      Some(DoClear(d.session, Some(grip.nodeId), up))
    else
      None
  }

  function EndOp(d: Dispatch, grip: Grip, ending: Ending): Option<Op> {
    var s, n, id := d.session, grip.nodeId, grip.reservationId;
    match ending
    case NotSent => Some(DoRelease(s, n, id))
    case AtCapacity => Some(DoRelease(s, n, id))
    case CutOff(now) => if id != 0 then Some(DoConfirm(s, n, id, now)) else None
    case OtherError(now) => if id != 0 then Some(DoConfirm(s, n, id, now)) else None
    case Replied(lease, now, up) =>
      if d.kind.Resource? then Some(DoConfirm(s, n, id, now)) else Some(DoCommit(s, n, id, lease, now, up))
    case SessionNotFound(up) =>
      if id != 0 then Some(DoRelease(s, n, id)) else Some(DoClear(s, Some(n), up))
  }

  /** The table operation a step performs, if any. */
  function OpOf(d: Dispatch, m: Move): Option<Op> {
    match (d.pc, m)
    case (Picking, Clean(prune)) =>
      if prune.None? then None else Some(DoPrune(prune.value.now, prune.value.ttl, prune.value.up))
    case (Looking, Look(now, up, _)) => Some(DoSnapshot(d.session, now, up))
    case (Claiming, ClaimRoute(now)) => Some(DoClaim(d.session, now))
    case (Holding(grip), TakeSlot(slot, up)) => SlotOp(d, grip, grip.reservationId != 0, slot, up)
    case (Following(_, grip), TakeSlot(slot, up)) => SlotOp(d, grip, true, slot, up)
    case (Reserving(_, n), ReserveRoute(now)) => Some(DoReserve(d.session, n, now))
    case (Running(grip), End(ending)) => EndOp(d, grip, ending)
    case _ => None
  }

  lemma EndIsOp(t: Table, d: Dispatch, grip: Grip, ending: Ending)
    ensures var op := EndOp(d, grip, ending);
      && (op.Some? ==> WellFormed(op.value))
      && EndAttempt(t, d, grip, ending).0 == if op.None? then t else Apply(t, op.value)
  {
  }

  lemma StepIsOp(t: Table, d: Dispatch, m: Move)
    requires Step(t, d, m).Some?
    ensures var op := OpOf(d, m);
      && (op.Some? ==> WellFormed(op.value))
      && Step(t, d, m).value.0 == if op.None? then t else Apply(t, op.value)
  {
    if d.pc.Running? {
      EndIsOp(t, d, d.pc.grip, m.ending);
    } else {
      PickIsOp(t, d, m);
    }
  }

  lemma PickIsOp(t: Table, d: Dispatch, m: Move)
    requires Step(t, d, m).Some? && !d.pc.Running?
    ensures var op := OpOf(d, m);
      && (op.Some? ==> WellFormed(op.value))
      && Step(t, d, m).value.0 == if op.None? then t else Apply(t, op.value)
  {
  }

  lemma SameSession(t: Table, d: Dispatch, m: Move)
    requires Step(t, d, m).Some?
    ensures Step(t, d, m).value.1.session == d.session
  {
  }

  lemma StepKeepsTable(t: Table, d: Dispatch, m: Move)
    requires Inv(t) && Step(t, d, m).Some?
    ensures Inv(Step(t, d, m).value.0) && Evolves(t, Step(t, d, m).value.0)
  {
    StepIsOp(t, d, m);
    if OpOf(d, m).Some? {
      InvKept(t, OpOf(d, m).value);
    } else {
      Idle(t);
    }
  }

  lemma Idle(t: Table)
    requires Inv(t)
    ensures Evolves(t, t)
  {
    forall s ensures CellStep(At(t, s), t.lastReservation, At(t, s), t.lastReservation) {
      assert CellOk(At(t, s), t.lastReservation);
    }
  }

  // ---------------------------------------------------------------- who holds what

  /** The claimed or reserved route a dispatch is working with. */
  function GripOf(d: Dispatch): Option<Grip> {
    match d.pc
    case Holding(grip) => Some(grip)
    case Following(_, grip) => Some(grip)
    case Running(grip) => Some(grip)
    case _ => None
  }

  /** The reservation id a dispatch still has to confirm or release; 0 if none. */
  function HeldId(d: Dispatch): nat { if GripOf(d).Some? then GripOf(d).value.reservationId else 0 }

  predicate Holds(d: Dispatch, s: SessionId, id: nat) { d.session == s && HeldId(d) == id }

  function Holders(active: map<DispatchId, Dispatch>, s: SessionId, id: nat): set<DispatchId> {
    set x | x in active && Holds(active[x], s, id)
  }

  function One(b: bool): nat { if b then 1 else 0 }

  predicate Joins(op: Option<Op>, s: SessionId) {
    op.Some? && (op.value.DoClaim? || op.value.DoReserve?) && op.value.s == s
  }

  predicate Leaves(op: Option<Op>, s: SessionId, id: nat) {
    op.Some? && op.value.DoRelease? && op.value.s == s && op.value.id == id
  }

  /** What an operation does to the count of a reservation still standing after it. */
  lemma OpCounts(t: Table, op: Op, s: SessionId)
    requires WellFormed(op) && Inv(t)
    requires s in Apply(t, op).routes && Provisional(Apply(t, op).routes[s])
    ensures var (r, u) := (Apply(t, op).routes[s], Apply(t, op));
      if s in t.routes then
        && r.reservationId == t.routes[s].reservationId
        && r.uses + One(Leaves(Some(op), s, r.reservationId)) >= t.routes[s].uses + One(Joins(Some(op), s))
      else
        Joins(Some(op), s) && r.reservationId > t.lastReservation && r.uses == 1
  {
    assert CellOk(At(t, s), t.lastReservation);
    match op
    case DoSweep(_, _) =>
    case DoPrune(_, _, _) =>
    case DoMark(_) =>
    case DoBegin(_, _, _, _) =>
    case DoReport(_, _, _, _, _) =>
    case DoDeleteByNode(_, _) =>
    case _ =>
  }

  /** A dispatch holds after a step only what it held before, unless it just joined; and it gives up
      what it releases. */
  lemma StepHolds(t: Table, d: Dispatch, m: Move, s: SessionId, id: nat)
    requires Step(t, d, m).Some? && id != 0
    ensures var (e, op) := (Step(t, d, m).value.1, OpOf(d, m));
      && e.session == d.session
      && (Holds(e, s, id) ==> Holds(d, s, id) || Joins(op, s))
      && (Joins(op, s) ==> !Holds(d, s, id))
      && (Leaves(op, s, id) ==> Holds(d, s, id) && !Holds(e, s, id))
  {
    SameSession(t, d, m);
    if d.pc.Running? {
      EndReleases(t, d, d.pc.grip, m.ending);
    } else if d.pc.Holding? || d.pc.Following? {
      SlotHolds(t, d, m);
    } else {
      FreeHolds(t, d, m);
    }
  }

  /** The operation joins nothing and releases at most this reservation. */
  predicate ReleasesOnly(op: Option<Op>, s: SessionId, id: nat) {
    op.Some? ==>
      && !op.value.DoClaim? && !op.value.DoReserve?
      && (op.value.DoRelease? ==> op.value.s == s && op.value.id == id)
  }

  /** A dispatch whose attempt ended holds nothing; what it released is what it held. */
  lemma EndReleases(t: Table, d: Dispatch, grip: Grip, ending: Ending)
    requires d.pc == Running(grip)
    ensures GripOf(EndAttempt(t, d, grip, ending).1).None?
    ensures ReleasesOnly(EndOp(d, grip, ending), d.session, grip.reservationId)
  {
  }

  lemma SlotHolds(t: Table, d: Dispatch, m: Move)
    requires Step(t, d, m).Some? && (d.pc.Holding? || d.pc.Following?)
    ensures var (e, op) := (Step(t, d, m).value.1, OpOf(d, m));
      && (GripOf(e).None? || (GripOf(e) == GripOf(d) && op.None?))
      && ReleasesOnly(op, d.session, d.pc.grip.reservationId)
  {
  }

  /** A dispatch without a route gets one only by joining, and releases nothing. */
  lemma FreeHolds(t: Table, d: Dispatch, m: Move)
    requires Step(t, d, m).Some? && GripOf(d).None?
    ensures var (e, op) := (Step(t, d, m).value.1, OpOf(d, m));
      && (HeldId(e) != 0 ==> Joins(op, d.session))
      && (op.Some? ==> !op.value.DoRelease?)
  {
  }

  // ---------------------------------------------------------------- counting over the system

  lemma HoldersUpdated(active: map<DispatchId, Dispatch>, x: DispatchId, e: Dispatch, s: SessionId, id: nat)
    requires x in active
    ensures |Holders(active[x := e], s, id)| + One(Holds(active[x], s, id)) ==
        |Holders(active, s, id)| + One(Holds(e, s, id))
  {
    var rest := Holders(active, s, id) - {x};
    assert Holders(active[x := e], s, id) == if Holds(e, s, id) then rest + {x} else rest;
    assert Holders(active, s, id) == if Holds(active[x], s, id) then rest + {x} else rest;
  }

  lemma HoldersStarted(active: map<DispatchId, Dispatch>, x: DispatchId, d: Dispatch, s: SessionId, id: nat)
    requires x !in active && !Holds(d, s, id)
    ensures Holders(active[x := d], s, id) == Holders(active, s, id)
  {
  }

  /** Every reservation is used at least as often as it is held. */
  ghost predicate Counted(s: State) {
    forall x | x in s.table.routes && Provisional(s.table.routes[x]) ::
      |Holders(s.active, x, s.table.routes[x].reservationId)| <= s.table.routes[x].uses
  }

  /** A dispatch only ever names ids already issued. */
  ghost predicate Issued(s: State) { forall x | x in s.active :: HeldId(s.active[x]) <= s.table.lastReservation }

  lemma NoneHolds(s: State, x: SessionId, id: nat)
    requires Issued(s) && id > s.table.lastReservation
    ensures Holders(s.active, x, id) == {}
  {
  }

  lemma AdvanceCounts(s: State, x: DispatchId, m: Move, session: SessionId)
    requires Inv(s.table) && Issued(s) && Counted(s)
    requires x in s.active && Step(s.table, s.active[x], m).Some?
    requires var u := Step(s.table, s.active[x], m).value.0; session in u.routes && Provisional(u.routes[session])
    ensures var (u, e) := Step(s.table, s.active[x], m).value;
      |Holders(s.active[x := e], session, u.routes[session].reservationId)| <= u.routes[session].uses
  {
    var d := s.active[x];
    var (u, e) := Step(s.table, d, m).value;
    var id := u.routes[session].reservationId;
    StepIsOp(s.table, d, m);
    StepHolds(s.table, d, m, session, id);
    HoldersUpdated(s.active, x, e, session, id);
    if OpOf(d, m).Some? {
      OpCounts(s.table, OpOf(d, m).value, session);
    }
    if session !in s.table.routes {
      NoneHolds(s, session, id);
    }
  }

  // ---------------------------------------------------------------- the attempts of one dispatch

  function Nodes(grips: seq<Grip>): (nodes: seq<NodeId>)
    ensures |nodes| == |grips|
  {
    seq(|grips|, i requires 0 <= i < |grips| => grips[i].nodeId)
  }

  predicate Distinct(nodes: seq<NodeId>) { forall i, j | 0 <= i < j < |nodes| :: nodes[i] != nodes[j] }

  /** How the attempts already made relate to where the dispatch stands: all but the current or last
      one were retryable refusals, and once a dispatch is over after nothing but refusals with its
      context alive, its result is the last of them. */
  predicate Trail(d: Dispatch) {
    && Distinct(d.attempted)
    && (d.refused != [] ==> d.kind.Exec? && d.target.None?)
    && (forall i | 0 <= i < |d.refused| :: d.refused[i].reservationId != 0)
    && |d.attempted| <= Limit(d)
    && (d.target.Some? ==> d.pc.Picking? || d.pc.PickFailed? || d.pc.Running? || d.pc.Done?)
    && match d.pc {
         case Running(grip) =>
           && d.attempted == Nodes(d.refused) + [grip.nodeId]
           && (d.target.Some? ==> grip == Grip(d.target.value, 0))
         case Done(result) =>
           && |d.refused| <= |d.attempted| <= |d.refused| + 1
           && d.attempted[..|d.refused|] == Nodes(d.refused)
           && (|d.attempted| == |d.refused| > 0 && result != ContextError ==>
                 result == CapacityRefusal(d.attempted[|d.attempted| - 1]))
         case Reserving(_, n) =>
           d.attempted == Nodes(d.refused) && |d.attempted| < Limit(d) && !Tried(d, n)
         case _ =>
           d.attempted == Nodes(d.refused) && |d.attempted| < Limit(d)
       }
  }

  lemma RunKeepsTrail(d: Dispatch, grip: Grip)
    requires Trail(d) && !d.pc.Running? && !d.pc.Done? && !Tried(d, grip.nodeId)
    requires d.target.Some? ==> grip == Grip(d.target.value, 0)
    ensures Trail(Run(d, grip))
  {
  }

  lemma DoneKeepsTrail(d: Dispatch, grip: Grip, result: Result)
    requires Trail(d) && d.pc == Running(grip)
    ensures Trail(To(d, Done(result)))
  {
    assert d.attempted[..|d.refused|] == Nodes(d.refused);
  }

  lemma RetryKeepsTrail(d: Dispatch, grip: Grip)
    requires Trail(d) && d.pc == Running(grip) && d.kind.Exec? && grip.reservationId != 0
    ensures var again := d.(refused := d.refused + [grip]);
      Trail(To(again, if |d.attempted| < Limit(d) then Picking else Done(CapacityRefusal(grip.nodeId))))
  {
    assert Nodes(d.refused + [grip]) == Nodes(d.refused) + [grip.nodeId];
    assert d.attempted[..|d.attempted|] == d.attempted;
  }

  lemma EndKeepsTrail(t: Table, d: Dispatch, grip: Grip, ending: Ending)
    requires Trail(d) && d.pc == Running(grip)
    ensures Trail(EndAttempt(t, d, grip, ending).1)
  {
    var e := EndAttempt(t, d, grip, ending).1;
    if ending.AtCapacity? && d.kind.Exec? && Release(t, d.session, grip.nodeId, grip.reservationId).1 == Removed {
      RetryKeepsTrail(d, grip);
    } else {
      assert e == To(d, e.pc) && e.pc.Done?;
      DoneKeepsTrail(d, grip, e.pc.result);
    }
  }

  lemma StepKeepsTrail(t: Table, d: Dispatch, m: Move)
    requires Trail(d) && Step(t, d, m).Some?
    ensures Trail(Step(t, d, m).value.1)
  {
    if d.pc.Running? {
      EndKeepsTrail(t, d, d.pc.grip, m.ending);
    } else {
      PickKeepsTrail(t, d, m);
    }
  }

  lemma PickKeepsTrail(t: Table, d: Dispatch, m: Move)
    requires Trail(d) && Step(t, d, m).Some? && !d.pc.Running?
    ensures Trail(Step(t, d, m).value.1)
  {
    if d.pc.Holding? || d.pc.Following? || d.pc.Reserving? {
      GripKeepsTrail(t, d, m);
    } else {
      LookKeepsTrail(t, d, m);
    }
  }

  lemma GripKeepsTrail(t: Table, d: Dispatch, m: Move)
    requires Trail(d) && Step(t, d, m).Some? && (d.pc.Holding? || d.pc.Following? || d.pc.Reserving?)
    ensures Trail(Step(t, d, m).value.1)
  {
    var e := Step(t, d, m).value.1;
    if e.pc.Running? {
      assert e == Run(d, e.pc.grip);
      RunKeepsTrail(d, e.pc.grip);
    } else {
      assert e == To(d, e.pc) && !e.pc.Reserving? && !e.pc.Done?;
    }
  }

  lemma LookKeepsTrail(t: Table, d: Dispatch, m: Move)
    requires Trail(d) && Step(t, d, m).Some?
    requires !d.pc.Running? && !d.pc.Holding? && !d.pc.Following? && !d.pc.Reserving?
    ensures Trail(Step(t, d, m).value.1)
  {
    var e := Step(t, d, m).value.1;
    if e.pc.Running? {
      RunKeepsTrail(d, e.pc.grip);
    } else if e.pc.Done? {
      assert d.attempted[..|d.refused|] == Nodes(d.refused);
    }
  }

  /** An attempt becomes a retryable refusal only if its provisional route, held by nobody else in the
      count, was removed by this very step. */
  lemma RefusalRemovedRoute(t: Table, d: Dispatch, m: Move)
    requires Step(t, d, m).Some? && |Step(t, d, m).value.1.refused| > |d.refused|
    ensures var (u, e) := Step(t, d, m).value;
      && d.pc.Running? && e.refused == d.refused + [d.pc.grip]
      && Owns(t, d.session, d.pc.grip.nodeId, d.pc.grip.reservationId)
      && t.routes[d.session].uses <= 1
      && u == t.(routes := t.routes - {d.session})
  {
  }

  // ---------------------------------------------------------------- grips name the right node

  /** A reservation a dispatch holds, if it still stands, stands at the node the dispatch knows. */
  predicate Gripped(t: Table, d: Dispatch) {
    HeldId(d) != 0 && d.session in t.routes && t.routes[d.session].reservationId == HeldId(d) ==>
      t.routes[d.session].nodeId == GripOf(d).value.nodeId
  }

  lemma GrippedKept(t: Table, u: Table, d: Dispatch)
    requires Evolves(t, u) && HeldId(d) <= t.lastReservation && Gripped(t, d)
    ensures Gripped(u, d)
  {
    assert CellStep(At(t, d.session), t.lastReservation, At(u, d.session), u.lastReservation);
  }

  /** A step keeps the grip it has, drops it, or takes a new one from the table. */
  lemma StepGrips(t: Table, d: Dispatch, m: Move)
    requires Step(t, d, m).Some?
    ensures var (u, e) := Step(t, d, m).value;
      HeldId(e) != 0 ==>
        || GripOf(e) == GripOf(d)
        || (d.session in u.routes &&
            GripOf(e).value == Grip(u.routes[d.session].nodeId, u.routes[d.session].reservationId))
  {
  }

  lemma StepKeepsGrip(t: Table, d: Dispatch, m: Move)
    requires Inv(t) && HeldId(d) <= t.lastReservation && Gripped(t, d) && Step(t, d, m).Some?
    ensures Gripped(Step(t, d, m).value.0, Step(t, d, m).value.1)
  {
    var (u, e) := Step(t, d, m).value;
    StepKeepsTable(t, d, m);
    StepGrips(t, d, m);
    SameSession(t, d, m);
    GrippedKept(t, u, d);
  }

  // ---------------------------------------------------------------- grips name the right session

  /** A reservation id a dispatch holds is carried by no other session's route. */
  ghost predicate Homed(t: Table, d: Dispatch) {
    HeldId(d) != 0 ==> forall s | s in t.routes && IdOf(t.routes[s]) == HeldId(d) :: s == d.session
  }

  /** An issued id that a session carries after a change of the table it carried before. */
  lemma CarriedBefore(t: Table, u: Table, s: SessionId, id: nat)
    requires Evolves(t, u) && 0 < id <= t.lastReservation && s in u.routes && IdOf(u.routes[s]) == id
    ensures s in t.routes && IdOf(t.routes[s]) == id
  {
    assert CellStep(At(t, s), t.lastReservation, At(u, s), u.lastReservation);
  }

  lemma HomedKept(t: Table, u: Table, d: Dispatch)
    requires Evolves(t, u) && HeldId(d) <= t.lastReservation && Homed(t, d)
    ensures Homed(u, d)
  {
    forall s | HeldId(d) != 0 && s in u.routes && IdOf(u.routes[s]) == HeldId(d)
      ensures s == d.session
    {
      CarriedBefore(t, u, s, HeldId(d));
    }
  }

  lemma StepKeepsHome(t: Table, d: Dispatch, m: Move)
    requires Inv(t) && HeldId(d) <= t.lastReservation && Homed(t, d) && Step(t, d, m).Some?
    ensures Homed(Step(t, d, m).value.0, Step(t, d, m).value.1)
  {
    var (u, e) := Step(t, d, m).value;
    StepKeepsTable(t, d, m);
    StepGrips(t, d, m);
    SameSession(t, d, m);
    HomedKept(t, u, d);
  }

  // ---------------------------------------------------------------- the system invariant

  /** What holds of each dispatch. */
  ghost predicate Placed(t: Table, d: Dispatch) { Trail(d) && Gripped(t, d) && Homed(t, d) }

  ghost predicate SystemInv(s: State) {
    && Inv(s.table)
    && Issued(s)
    && Counted(s)
    && (forall x | x in s.active :: Placed(s.table, s.active[x]))
  }

  lemma StepIssues(t: Table, d: Dispatch, m: Move)
    requires Inv(t) && HeldId(d) <= t.lastReservation && Step(t, d, m).Some?
    ensures var (u, e) := Step(t, d, m).value; HeldId(e) <= u.lastReservation && t.lastReservation <= u.lastReservation
  {
    var u := Step(t, d, m).value.0;
    StepKeepsTable(t, d, m);
    StepGrips(t, d, m);
    assert CellStep(At(t, d.session), t.lastReservation, At(u, d.session), u.lastReservation);
  }

  lemma AdvanceKeeps(s: State, x: DispatchId, m: Move)
    requires SystemInv(s) && x in s.active && Step(s.table, s.active[x], m).Some?
    ensures var (u, e) := Step(s.table, s.active[x], m).value; SystemInv(State(u, s.active[x := e]))
  {
    var d := s.active[x];
    var (u, e) := Step(s.table, d, m).value;
    StepKeepsTable(s.table, d, m);
    StepIssues(s.table, d, m);
    StepKeepsTrail(s.table, d, m);
    StepKeepsGrip(s.table, d, m);
    StepKeepsHome(s.table, d, m);
    forall y | y in s.active && y != x
      ensures Placed(u, s.active[y])
    {
      GrippedKept(s.table, u, s.active[y]);
      HomedKept(s.table, u, s.active[y]);
    }
    forall session | session in u.routes && Provisional(u.routes[session])
      ensures |Holders(s.active[x := e], session, u.routes[session].reservationId)| <= u.routes[session].uses
    {
      AdvanceCounts(s, x, m, session);
    }
  }

  lemma EnvironmentKeeps(s: State, op: Op)
    requires SystemInv(s) && FromOutside(op)
    ensures SystemInv(s.(table := Apply(s.table, op)))
  {
    var u := Apply(s.table, op);
    InvKept(s.table, op);
    assert s.table.lastReservation <= u.lastReservation by {
      assert u.lastReservation == s.table.lastReservation;
    }
    forall y | y in s.active
      ensures Placed(u, s.active[y])
    {
      GrippedKept(s.table, u, s.active[y]);
      HomedKept(s.table, u, s.active[y]);
    }
    forall session | session in u.routes && Provisional(u.routes[session])
      ensures |Holders(s.active, session, u.routes[session].reservationId)| <= u.routes[session].uses
    {
      OpCounts(s.table, op, session);
    }
  }

  lemma StartKeeps(s: State, x: DispatchId, d: Dispatch)
    requires SystemInv(s) && x !in s.active && Startable(d)
    ensures SystemInv(s.(active := s.active[x := d]))
  {
    assert Nodes([]) == [];
    forall session | session in s.table.routes && Provisional(s.table.routes[session])
      ensures
        |Holders(s.active[x := d], session, s.table.routes[session].reservationId)| <= s.table.routes[session].uses
    {
      HoldersStarted(s.active, x, d, session, s.table.routes[session].reservationId);
    }
  }

  lemma RestartKeeps(s: State, during: Option<Op>, at: Instant)
    requires SystemInv(s) && (during.Some? ==> WellFormed(during.value))
    ensures SystemInv(Next(s, Restart(during, at)).value)
  {
    if during.Some? {
      InvKept(s.table, during.value);
      RestoreRebuilds(Apply(s.table, during.value), at);
    } else {
      RestoreRebuilds(s.table, at);
    }
    var u := Next(s, Restart(during, at)).value;
    forall session | session in u.table.routes ensures !Provisional(u.table.routes[session]) {}
  }

  lemma NextKeeps(s: State, a: Action)
    requires SystemInv(s) && Next(s, a).Some?
    ensures SystemInv(Next(s, a).value)
  {
    match a
    case Start(x, d) => StartKeeps(s, x, d);
    case Advance(x, m) => AdvanceKeeps(s, x, m);
    case Environment(op) => EnvironmentKeeps(s, op);
    case Restart(during, at) => RestartKeeps(s, during, at);
  }

  lemma BootInv()
    ensures SystemInv(Boot)
  {
  }

  /** Every state of every run keeps the system invariant. */
  lemma {:induction false} RunsKeep(run: seq<State>, actions: seq<Action>, i: nat)
    requires IsRun(run, actions) && SystemInv(run[0]) && i < |run|
    ensures SystemInv(run[i])
  {
    if i > 0 {
      RunsKeep(run, actions, i - 1);
      assert Next(run[i - 1], actions[i - 1]) == Some(run[i - 1 + 1]);
      NextKeeps(run[i - 1], actions[i - 1]);
    }
  }
}
