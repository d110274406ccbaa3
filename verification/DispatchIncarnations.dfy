/** A reservation id belongs to one incarnation of one session's route, for the life of the process; and what a
    dispatch can still do once that incarnation is over. */
module DispatchIncarnations {
  import opened Common
  import opened RouteModel
  import opened RouteInvariants
  import opened Dispatch
  import opened DispatchInvariants
  import opened DispatchTheorems

  // ---------------------------------------------------------------- one id, one incarnation

  /** Session s has a route that carries the id, provisionally or confirmed. */
  predicate Carries(t: Table, s: SessionId, id: nat) { s in t.routes && IdOf(t.routes[s]) == id }

  lemma NextEvolves(s: State, a: Action)
    requires SystemInv(s) && Next(s, a).Some? && !a.Restart?
    ensures var t := Next(s, a).value.table; Evolves(s.table, t) && s.table.lastReservation <= t.lastReservation
  {
    match a
    case Start(_, _) => Idle(s.table);
    case Environment(op) => InvKept(s.table, op);
    case Advance(x, m) =>
      StepKeepsTable(s.table, s.active[x], m);
      StepIssues(s.table, s.active[x], m);
  }

  /** The same process from state i to state k. */
  ghost predicate SameProcess(run: seq<State>, actions: seq<Action>, i: nat, k: nat) {
    && IsRun(run, actions) && run[0] == Boot && i <= k < |run|
    && forall x | i <= x < k :: !actions[x].Restart?
  }

  lemma RunEvolves(run: seq<State>, actions: seq<Action>, i: nat, k: nat, j: nat)
    requires SameProcess(run, actions, i, k) && i <= j < k
    ensures Evolves(run[j].table, run[j + 1].table)
    ensures run[j].table.lastReservation <= run[j + 1].table.lastReservation
  {
    BootInv();
    RunsKeep(run, actions, j);
    assert Next(run[j], actions[j]) == Some(run[j + 1]);
    NextEvolves(run[j], actions[j]);
  }

  lemma {:induction false} Grows(run: seq<State>, i: nat, j: nat)
    requires i <= j < |run|
    requires forall x | i <= x < j :: run[x].table.lastReservation <= run[x + 1].table.lastReservation
    ensures run[i].table.lastReservation <= run[j].table.lastReservation
    decreases j
  {
    if j > i {
      Grows(run, i, j - 1);
      assert run[j - 1].table.lastReservation <= run[j - 1 + 1].table.lastReservation;
    }
  }

  lemma IssuedForGood(run: seq<State>, actions: seq<Action>, i: nat, k: nat, j: nat)
    requires SameProcess(run, actions, i, k) && i <= j <= k
    ensures run[i].table.lastReservation <= run[j].table.lastReservation
  {
    forall x | i <= x < j
      ensures run[x].table.lastReservation <= run[x + 1].table.lastReservation
    {
      RunEvolves(run, actions, i, k, x);
    }
    Grows(run, i, j);
  }

  /** An id issued by state i that session b carries at state k, b has carried at every state in between. */
  lemma {:induction false} CarriedThroughout(run: seq<State>, actions: seq<Action>, i: nat, j: nat, k: nat,
                                             b: SessionId, id: nat)
    requires SameProcess(run, actions, i, k) && i <= j <= k
    requires 0 < id <= run[i].table.lastReservation && Carries(run[k].table, b, id)
    ensures Carries(run[j].table, b, id)
    decreases k - j
  {
    if j < k {
      CarriedThroughout(run, actions, i, j + 1, k, b, id);
      IssuedForGood(run, actions, i, k, j);
      RunEvolves(run, actions, i, k, j);
      CarriedBefore(run[j].table, run[j + 1].table, b, id);
    }
  }

  /** Each nonzero reservation id belongs to exactly one incarnation of one session's route: whoever carries it at two
      points of a process is the same session, and its route was never gone in between. */
  lemma OneIncarnation(run: seq<State>, actions: seq<Action>, i: nat, j: nat, k: nat,
                       a: SessionId, b: SessionId, id: nat)
    requires SameProcess(run, actions, i, k) && i <= j <= k && id != 0
    requires Carries(run[i].table, a, id) && Carries(run[k].table, b, id)
    ensures a == b && Carries(run[j].table, a, id)
  {
    BootInv();
    RunsKeep(run, actions, i);
    assert CellOk(At(run[i].table, a), run[i].table.lastReservation);
    CarriedThroughout(run, actions, i, i, k, b, id);
    CarriedThroughout(run, actions, i, j, k, b, id);
  }

  /** An issued id that nobody carries is never carried again in the life of the process. */
  lemma RetiredForLife(run: seq<State>, actions: seq<Action>, i: nat, k: nat, id: nat)
    requires SameProcess(run, actions, i, k)
    requires 0 < id <= run[i].table.lastReservation && Retired(run[i].table, id)
    ensures Retired(run[k].table, id)
  {
    forall b | b in run[k].table.routes
      ensures IdOf(run[k].table.routes[b]) != id
    {
      if Carries(run[k].table, b, id) {
        CarriedThroughout(run, actions, i, i, k, b, id);
      }
    }
  }

  // ---------------------------------------------------------------- stale holders

  /** The incarnation the dispatch reserved or joined is over: its session has no route, or another one. */
  predicate Stale(t: Table, d: Dispatch) { HeldId(d) != 0 && !Carries(t, d.session, HeldId(d)) }

  lemma StaleIsRetired(t: Table, d: Dispatch)
    requires Homed(t, d) && Stale(t, d)
    ensures Retired(t, HeldId(d))
  {
  }

  /** Once stale, a dispatch stays so as long as it holds on to its reservation. */
  lemma StaleForLife(run: seq<State>, actions: seq<Action>, i: nat, k: nat, x: DispatchId, y: DispatchId)
    requires SameProcess(run, actions, i, k) && x in run[i].active && y in run[k].active
    requires Stale(run[i].table, run[i].active[x]) && HeldId(run[k].active[y]) == HeldId(run[i].active[x])
    ensures Stale(run[k].table, run[k].active[y])
  {
    BootInv();
    RunsKeep(run, actions, i);
    StaleIsRetired(run[i].table, run[i].active[x]);
    RetiredForLife(run, actions, i, k, HeldId(run[i].active[x]));
  }

  /** A dispatch whose incarnation is over changes the table only by a blind clear, and then exactly when the session
      has, by now, a route at the node the dispatch remembers that can be deleted. Confirming, committing and
      releasing change nothing, even if the session was reserved again on the same node. */
  lemma StaleHolderChangesIff(s: State, x: DispatchId, m: Move)
    requires SystemInv(s) && x in s.active && Step(s.table, s.active[x], m).Some?
    requires Stale(s.table, s.active[x])
    ensures Step(s.table, s.active[x], m).value.0 != s.table <==>
      BlindClear(s.active[x], m) && Clears(s.table, s.active[x], m.up)
  {
    var d, t := s.active[x], s.table;
    StaleIsRetired(t, d);
    StepIsOp(t, d, m);
    if BlindClear(d, m) {
      assert OpOf(d, m) == Some(DoClear(d.session, Some(d.pc.grip.nodeId), m.up));
    } else {
      HolderOps(d, m);
      if OpOf(d, m).Some? {
        InertOp(t, OpOf(d, m).value, HeldId(d));
      }
    }
  }

  /** What a dispatch holding a reservation does, the blind clear apart, it does under the id it holds. */
  lemma HolderOps(d: Dispatch, m: Move)
    requires HeldId(d) != 0 && !BlindClear(d, m)
    ensures OpOf(d, m).Some? ==>
      (OpOf(d, m).value.DoConfirm? || OpOf(d, m).value.DoCommit? || OpOf(d, m).value.DoRelease?) &&
          OpOf(d, m).value.id == HeldId(d)
  {
  }

  lemma InertOp(t: Table, op: Op, id: nat)
    requires Inv(t) && id != 0 && Retired(t, id)
    requires (op.DoConfirm? || op.DoCommit? || op.DoRelease?) && op.id == id
    ensures Apply(t, op) == t
  {
    match op
    case DoConfirm(session, n, _, now) => RetiredIdIsInert(t, session, n, id, 0, now, true);
    case DoCommit(session, n, _, lease, now, up) => RetiredIdIsInert(t, session, n, id, lease, now, up);
    case DoRelease(session, n, _) => RetiredIdIsInert(t, session, n, id, 0, 1, true);
  }
}
