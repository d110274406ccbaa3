/** When the use count of a reservation is exact: always, except after a commit that failed. */
module DispatchCounting {
  import opened Common
  import opened RouteModel
  import opened RouteInvariants
  import opened Dispatch
  import opened DispatchInvariants

  /** A commit that fails ends the dispatch without giving its reservation back. */
  predicate Leaks(t: Table, d: Dispatch, m: Move) {
    && d.pc.Running? && m.End? && m.ending.Replied? && !d.kind.Resource?
    && Owns(t, d.session, d.pc.grip.nodeId, d.pc.grip.reservationId)
    && (m.ending.lease == 0 || !m.ending.up)
  }

  /** The reservation of a session, if it has one, is used exactly as often as it is held. */
  predicate Tallied(s: State, session: SessionId) {
    session in s.table.routes && Provisional(s.table.routes[session]) ==>
      |Holders(s.active, session, s.table.routes[session].reservationId)| == s.table.routes[session].uses
  }

  /** What an operation does to the count of a reservation that stands before and after it, if releases name
      the right node. */
  lemma OpCountsExactly(t: Table, op: Op, s: SessionId)
    requires WellFormed(op) && Inv(t) && s in t.routes
    requires s in Apply(t, op).routes && Provisional(Apply(t, op).routes[s])
    requires Leaves(Some(op), s, t.routes[s].reservationId) ==> op.n == t.routes[s].nodeId
    ensures var r := Apply(t, op).routes[s];
      && r.reservationId == t.routes[s].reservationId
      && r.uses + One(Leaves(Some(op), s, r.reservationId)) == t.routes[s].uses + One(Joins(Some(op), s))
  {
    assert CellOk(At(t, s), t.lastReservation);
    match op
    case DoSweep(_, _) =>
    case DoPrune(_, _, _) =>
    case DoMark(_) =>
    case DoBegin(_, _, _, _) =>
    case DoReport(_, _, _, _, _) =>
    case DoDeleteByNode(_, _) =>
    case _ =>
  }

  /** The end of an attempt, seen from a reservation that stands after it. */
  lemma EndTallies(t: Table, d: Dispatch, m: Move)
    requires Inv(t) && d.pc.Running? && m.End? && Gripped(t, d) && HeldId(d) != 0
    requires var u := EndAttempt(t, d, d.pc.grip, m.ending).0;
      d.session in u.routes && u.routes[d.session].reservationId == HeldId(d)
    ensures d.session in t.routes && t.routes[d.session].reservationId == HeldId(d)
    ensures Leaks(t, d, m) <==> !Leaves(OpOf(d, m), d.session, HeldId(d))
  {
    assert CellOk(At(t, d.session), t.lastReservation);
  }

  /** The slot steps, likewise: who stops holding has given the reservation back. */
  lemma SlotTallies(t: Table, d: Dispatch, m: Move)
    requires Inv(t) && (d.pc.Holding? || d.pc.Following?) && m.TakeSlot? && Gripped(t, d) && HeldId(d) != 0
    requires var u := Step(t, d, m).value.0; d.session in u.routes && u.routes[d.session].reservationId == HeldId(d)
    ensures HeldId(Step(t, d, m).value.1) == (if Leaves(OpOf(d, m), d.session, HeldId(d)) then 0 else HeldId(d))
  {
    assert CellOk(At(t, d.session), t.lastReservation);
  }

  /** Who holds a standing reservation after a step: those who held it, plus whoever joined, minus whoever gave
      it back or leaked it. */
  lemma HoldsExactly(t: Table, d: Dispatch, m: Move, s: SessionId)
    requires Inv(t) && Gripped(t, d) && HeldId(d) <= t.lastReservation && Step(t, d, m).Some?
    requires var u := Step(t, d, m).value.0; s in u.routes && Provisional(u.routes[s])
    ensures var (u, e) := Step(t, d, m).value; var id := u.routes[s].reservationId;
      One(Holds(e, s, id)) + One(Leaves(OpOf(d, m), s, id)) + One(s == d.session && Leaks(t, d, m))
        == One(Holds(d, s, id)) + One(Joins(OpOf(d, m), s))
  {
    var (u, e) := Step(t, d, m).value;
    var id := u.routes[s].reservationId;
    SameSession(t, d, m);
    StepHolds(t, d, m, s, id);
    if s == d.session && HeldId(d) == id {
      if d.pc.Running? {
        EndTallies(t, d, m);
        EndLetsGo(t, d, m);
      } else {
        SlotTallies(t, d, m);
      }
    } else if s == d.session {
      NoLeak(t, d, m);
      JoinsHold(t, d, m);
    }
  }

  lemma EndLetsGo(t: Table, d: Dispatch, m: Move)
    requires d.pc.Running? && m.End?
    ensures GripOf(EndAttempt(t, d, d.pc.grip, m.ending).1).None? && !Joins(OpOf(d, m), d.session)
  {
  }

  /** A leak leaves the leaked reservation standing, and no other. */
  lemma NoLeak(t: Table, d: Dispatch, m: Move)
    requires Step(t, d, m).Some? && d.session in Step(t, d, m).value.0.routes
    requires Step(t, d, m).value.0.routes[d.session].reservationId != HeldId(d)
    ensures !Leaks(t, d, m)
  {
  }

  lemma JoinsHold(t: Table, d: Dispatch, m: Move)
    requires Step(t, d, m).Some? && d.session in Step(t, d, m).value.0.routes
    ensures Joins(OpOf(d, m), d.session) ==>
      HeldId(Step(t, d, m).value.1) == Step(t, d, m).value.0.routes[d.session].reservationId
  {
  }

  /** A dispatch step makes a count inexact if and only if it is a failed commit by a dispatch whose reservation
      still stands: no lease in the reply, or the store call failed. */
  lemma TallyBreaksIff(s: State, x: DispatchId, m: Move, session: SessionId)
    requires SystemInv(s) && x in s.active && Step(s.table, s.active[x], m).Some? && Tallied(s, session)
    ensures var d := s.active[x]; var (u, e) := Step(s.table, d, m).value;
      !Tallied(State(u, s.active[x := e]), session) <==> session == d.session && Leaks(s.table, d, m)
  {
    var d, t := s.active[x], s.table;
    var (u, e) := Step(t, d, m).value;
    if session == d.session && Leaks(t, d, m) {
      LeakStands(t, d, m);
    }
    if session in u.routes && Provisional(u.routes[session]) {
      var id := u.routes[session].reservationId;
      HoldersUpdated(s.active, x, e, session, id);
      HoldsExactly(t, d, m, session);
      TallyShift(s, x, m, session);
    }
  }

  lemma LeakStands(t: Table, d: Dispatch, m: Move)
    requires Step(t, d, m).Some? && Leaks(t, d, m)
    ensures Step(t, d, m).value.0 == t && d.session in t.routes && Provisional(t.routes[d.session])
  {
  }

  /** How a step moves the count itself. */
  lemma TallyShift(s: State, x: DispatchId, m: Move, session: SessionId)
    requires SystemInv(s) && x in s.active && Step(s.table, s.active[x], m).Some? && Tallied(s, session)
    requires var u := Step(s.table, s.active[x], m).value.0; session in u.routes && Provisional(u.routes[session])
    ensures var (d, u) := (s.active[x], Step(s.table, s.active[x], m).value.0);
      var id := u.routes[session].reservationId;
      u.routes[session].uses + One(Leaves(OpOf(d, m), session, id)) ==
        |Holders(s.active, session, id)| + One(Joins(OpOf(d, m), session))
  {
    var d, t := s.active[x], s.table;
    var u := Step(t, d, m).value.0;
    var id, op := u.routes[session].reservationId, OpOf(d, m);
    StepIsOp(t, d, m);
    StepHolds(t, d, m, session, id);
    if op.Some? {
      if session in t.routes {
        ReleasesAtGrip(d, m);
        OpCounts(t, op.value, session);
        OpCountsExactly(t, op.value, session);
      } else {
        OpCounts(t, op.value, session);
        NoneHolds(s, session, id);
        assert !Holds(d, session, id);
      }
    }
  }

  lemma ReleasesAtGrip(d: Dispatch, m: Move)
    ensures OpOf(d, m).Some? && OpOf(d, m).value.DoRelease? ==>
      GripOf(d) == Some(Grip(OpOf(d, m).value.n, OpOf(d, m).value.id)) && OpOf(d, m).value.s == d.session
  {
  }

  // ---------------------------------------------------------------- over runs

  predicate LeakingAction(s: State, a: Action) { a.Advance? && a.id in s.active && Leaks(s.table, s.active[a.id], a.m) }

  lemma OutsideTallied(s: State, op: Op, session: SessionId)
    requires SystemInv(s) && FromOutside(op) && Tallied(s, session)
    ensures Tallied(s.(table := Apply(s.table, op)), session)
  {
    var u := Apply(s.table, op);
    if session in u.routes && Provisional(u.routes[session]) {
      OpCounts(s.table, op, session);
      OpCountsExactly(s.table, op, session);
    }
  }

  lemma RestartTallied(s: State, during: Option<Op>, at: Instant, session: SessionId)
    requires during.Some? ==> WellFormed(during.value)
    ensures Tallied(Next(s, Restart(during, at)).value, session)
  {
  }

  lemma NextTallied(s: State, a: Action, session: SessionId)
    requires SystemInv(s) && Next(s, a).Some? && !LeakingAction(s, a) && Tallied(s, session)
    ensures Tallied(Next(s, a).value, session)
  {
    match a
    case Start(x, d) =>
      if session in s.table.routes && Provisional(s.table.routes[session]) {
        HoldersStarted(s.active, x, d, session, s.table.routes[session].reservationId);
      }
    case Advance(x, m) => TallyBreaksIff(s, x, m, session);
    case Environment(op) => OutsideTallied(s, op, session);
    case Restart(during, at) => RestartTallied(s, during, at, session);
  }

  lemma RunTallied(run: seq<State>, actions: seq<Action>, j: nat, session: SessionId)
    requires IsRun(run, actions) && run[0] == Boot && j < |actions| && !LeakingAction(run[j], actions[j])
    ensures Tallied(run[j], session) ==> Tallied(run[j + 1], session)
  {
    BootInv();
    RunsKeep(run, actions, j);
    assert Next(run[j], actions[j]) == Some(run[j + 1]);
    if Tallied(run[j], session) {
      NextTallied(run[j], actions[j], session);
    }
  }

  lemma {:induction false} TallyChain(run: seq<State>, i: nat, session: SessionId)
    requires i < |run| && Tallied(run[0], session)
    requires forall j | 0 <= j < |run| - 1 :: Tallied(run[j], session) ==> Tallied(run[j + 1], session)
    ensures Tallied(run[i], session)
    decreases i
  {
    if i > 0 {
      TallyChain(run, i - 1, session);
      assert Tallied(run[i - 1], session) ==> Tallied(run[i - 1 + 1], session);
    }
  }

  /** As long as no commit has failed in that way, every reservation is used exactly as often as it is held, in
      every state of every run. */
  lemma TalliedOverRuns(run: seq<State>, actions: seq<Action>, i: nat, session: SessionId)
    requires IsRun(run, actions) && run[0] == Boot && i < |run|
    requires forall j | 0 <= j < |actions| :: !LeakingAction(run[j], actions[j])
    ensures Tallied(run[i], session)
  {
    forall j | 0 <= j < |run| - 1
      ensures Tallied(run[j], session) ==> Tallied(run[j + 1], session)
    {
      RunTallied(run, actions, j, session);
    }
    TallyChain(run, i, session);
  }
}
