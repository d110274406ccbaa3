/** Dispatching one terminal command: pick a worker, run the attempt, retry on a capacity refusal.

    A dispatch is a program counter over the shared route table. Each Step is one critical section on
    the table together with the local decisions that follow it; whatever the other parties decide (slot
    free or not, worker online or not, the worker's reply, a cancelled context) is a parameter of the
    step, so a theorem over all moves covers every behaviour of the rest of the system. */
module Dispatch {
  import opened Common
  import opened RouteModel
  import opened RouteInvariants

  datatype Kind = Exec | LeaseRenew | Resource

  datatype PickError = SessionUnavailable | RouteConflict | NoWorker | NoCapacity

  datatype Result =
    | ContextError
    | PickErr(error: PickError)
    | AttemptError
    | Success
    | CapacityRefusal(nodeId: NodeId)
    | WorkerError

  datatype Pc =
    | Picking                                   // top of an attempt
    | Looking                                   // inline pruning is over
    | Claiming                                  // the snapshot did not rule the route out
    | Holding(grip: Grip)                       // claimed a route, no slot at its node yet
    | Choosing(round: nat)                      // no route: looking for any worker
    | Reserving(round: nat, nodeId: NodeId)     // slot taken at nodeId, route not reserved yet
    | Following(round: nat, grip: Grip)         // another request reserved first, at another node
    | PickFailed(error: PickError)
    | Running(grip: Grip)                       // slot and route: the attempt itself
    | Done(result: Result)

  /** `online` is how many workers offered the capability when the dispatch began, `attempted` lists the
      workers tried, `refused` the attempts that ended in a retryable refusal. */
  datatype Dispatch = Dispatch(
    session: SessionId,
    kind: Kind,
    target: Option<NodeId>,
    online: nat,
    attempted: seq<NodeId>,
    refused: seq<Grip>,
    pc: Pc)

  /** How many workers the dispatch may try: only creating a session is retried. */
  function Limit(d: Dispatch): nat { if d.kind.Exec? && d.online > 1 then d.online else 1 }

  datatype Slot = Taken | WorkerGone | WorkerFull

  /** How an attempt ends. NotSent: the command never reached the worker, or its channel closed first.
      CutOff: it was sent, then the context ended or the caller's bookkeeping failed. */
  datatype Ending =
    | NotSent
    | CutOff(now: Instant)
    | Replied(lease: nat, now: Instant, up: bool)
    | SessionNotFound(up: bool)
    | AtCapacity
    | OtherError(now: Instant)

  /** The inline pruning at the top of a pick; None when the last one is too recent. */
  datatype Pruning = Pruning(now: Instant, ttl: nat, up: bool)

  datatype Move =
    | Cancel
    | TakeTarget(slot: Slot)
    | Clean(prune: Option<Pruning>)
    | Look(now: Instant, up: bool, workerReady: bool)
    | ClaimRoute(now: Instant)
    | TakeSlot(slot: Slot, up: bool)
    | Choose(found: Option<NodeId>, error: PickError)
    | ReserveRoute(now: Instant)
    | GiveUp(contextDead: bool)
    | End(ending: Ending)

  function To(d: Dispatch, pc: Pc): Dispatch { d.(pc := pc) }

  function Run(d: Dispatch, grip: Grip): Dispatch {
    d.(attempted := d.attempted + [grip.nodeId], pc := Running(grip))
  }

  predicate Tried(d: Dispatch, n: NodeId) { n in d.attempted }

  /** A release that the code makes only for a nonzero id. */
  function Drop(t: Table, d: Dispatch, grip: Grip): Table {
    Release(t, d.session, grip.nodeId, grip.reservationId).0
  }

  /** Taking a slot at the node of a claimed route. */
  function TakeClaimed(t: Table, d: Dispatch, grip: Grip, slot: Slot, up: bool): (Table, Dispatch) {
    if Tried(d, grip.nodeId) then
      (Drop(t, d, grip), To(d, PickFailed(RouteConflict)))
    else match slot
      case Taken => (t, Run(d, grip))
      case WorkerFull => (Drop(t, d, grip), To(d, PickFailed(NoCapacity)))
      case WorkerGone =>
        if grip.reservationId == 0 then
          (t, To(d, PickFailed(SessionUnavailable)))
        else
          (Clear(t, d.session, Some(grip.nodeId), up).0, To(d, Choosing(0)))
  }

  /** Taking a slot at the node another request reserved. */
  function TakeFollowed(t: Table, d: Dispatch, round: nat, grip: Grip, slot: Slot, up: bool): (Table, Dispatch) {
    if Tried(d, grip.nodeId) then
      (Drop(t, d, grip), To(d, PickFailed(RouteConflict)))
    else match slot
      case Taken => (t, Run(d, grip))
      case WorkerFull => (Drop(t, d, grip), To(d, PickFailed(NoCapacity)))
      case WorkerGone => (Clear(t, d.session, Some(grip.nodeId), up).0, To(d, Choosing(round + 1)))
  }

  function EndAttempt(t: Table, d: Dispatch, grip: Grip, ending: Ending): (Table, Dispatch) {
    var s, n, id := d.session, grip.nodeId, grip.reservationId;
    match ending
    case NotSent => (Drop(t, d, grip), To(d, Done(AttemptError)))
    case CutOff(now) =>
      (if id != 0 then Confirm(t, s, n, id, now).0 else t, To(d, Done(AttemptError)))
    case Replied(lease, now, up) =>
      if d.kind.Resource? then
        (Confirm(t, s, n, id, now).0, To(d, Done(Success)))
      else
        var (u, result) := Commit(t, s, n, id, lease, now, up);
        (u, To(d, Done(if result == Committed then Success else AttemptError)))
    case SessionNotFound(up) =>
      if id != 0 then
        (Drop(t, d, grip), To(d, Done(WorkerError)))
      else
        var (u, ok) := Clear(t, s, Some(n), up);
        (u, To(d, Done(if ok then WorkerError else AttemptError)))
    case AtCapacity =>
      var (u, released) := Release(t, s, n, id);
      if d.kind.Exec? && released == Removed then
        var again := d.(refused := d.refused + [grip]);
        (u, To(again, if |d.attempted| < Limit(d) then Picking else Done(CapacityRefusal(n))))
      else
        (u, To(d, Done(CapacityRefusal(n))))
    case OtherError(now) =>
      (if id != 0 then Confirm(t, s, n, id, now).0 else t, To(d, Done(WorkerError)))
  }

  /** None when the move does not fit the program counter. */
  function Step(t: Table, d: Dispatch, m: Move): Option<(Table, Dispatch)> {
    match (d.pc, m)
    case (Picking, Cancel) => Some((t, To(d, Done(ContextError))))
    case (Picking, TakeTarget(slot)) =>
      if d.target.None? then None
      else if slot.Taken? then Some((t, Run(d, Grip(d.target.value, 0))))
      else Some((t, To(d, PickFailed(if slot.WorkerGone? then NoWorker else NoCapacity))))
    case (Picking, Clean(prune)) =>
      if d.target.Some? then None
      else
        var u := if prune.None? then t else Prune(t, prune.value.now, prune.value.ttl, prune.value.up);
        Some((u, To(d, Looking)))
    case (Looking, Look(now, up, workerReady)) =>
      var (u, route) := Snapshot(t, d.session, now, up);
      if route.Some? && !Provisional(route.value) && (route.value.recovery != Ready || !workerReady) then
        Some((u, To(d, PickFailed(SessionUnavailable))))
      else
        Some((u, To(d, Claiming)))
    case (Claiming, ClaimRoute(now)) =>
      var (u, grip) := Claim(t, d.session, now);
      Some((u, To(d, if grip.Some? then Holding(grip.value) else Choosing(0))))
    case (Holding(grip), TakeSlot(slot, up)) => Some(TakeClaimed(t, d, grip, slot, up))
    case (Choosing(round), Choose(found, error)) =>
      if round >= 2 then Some((t, To(d, PickFailed(NoWorker))))
      else if found.None? then Some((t, To(d, PickFailed(error))))
      else if Tried(d, found.value) then None
      else Some((t, To(d, Reserving(round, found.value))))
    case (Reserving(round, n), ReserveRoute(now)) =>
      var (u, grip) := Reserve(t, d.session, n, now);
      Some((u, if grip.nodeId == n then Run(d, grip) else To(d, Following(round, grip))))
    case (Following(round, grip), TakeSlot(slot, up)) => Some(TakeFollowed(t, d, round, grip, slot, up))
    case (PickFailed(error), GiveUp(dead)) =>
      Some((t, To(d, Done(if dead then ContextError
                          else if d.refused != [] then CapacityRefusal(d.refused[|d.refused| - 1].nodeId)
                          else PickErr(error)))))
    case (Running(grip), End(ending)) => Some(EndAttempt(t, d, grip, ending))
    case _ => None
  }

  // ---------------------------------------------------------------- the whole system

  type DispatchId = nat

  datatype State = State(table: Table, active: map<DispatchId, Dispatch>)

  /** Restart(Some(op)) loses the process inside op, after its store call. */
  datatype Action =
    | Start(id: DispatchId, d: Dispatch)
    | Advance(id: DispatchId, m: Move)
    | Environment(op: Op)
    | Restart(during: Option<Op>, at: Instant)

  /** What reaches the table other than through a dispatch. */
  predicate FromOutside(op: Op) {
    WellFormed(op) && !op.DoReserve? && !op.DoClaim? && !op.DoConfirm? && !op.DoCommit? && !op.DoRelease?
  }

  predicate Startable(d: Dispatch) {
    d.pc == Picking && d.attempted == [] && d.refused == []
  }

  function Next(s: State, a: Action): Option<State> {
    match a
    case Start(id, d) =>
      if id in s.active || !Startable(d) then None else Some(s.(active := s.active[id := d]))
    case Advance(id, m) =>
      if id !in s.active then None
      else
        var moved := Step(s.table, s.active[id], m);
        if moved.None? then None else Some(State(moved.value.0, s.active[id := moved.value.1]))
    case Environment(op) =>
      if FromOutside(op) then Some(s.(table := Apply(s.table, op))) else None
    case Restart(during, at) =>
      if during.Some? && !WellFormed(during.value) then None
      else
        var rows := if during.Some? then Apply(s.table, during.value).rows else s.table.rows;
        Some(State(Restore(rows, at), map[]))
  }

  const Boot := State(Empty, map[])

  /** States reachable by the actions of a run, oldest first. */
  ghost predicate IsRun(run: seq<State>, actions: seq<Action>) {
    && |run| == |actions| + 1
    && forall i | 0 <= i < |actions| :: Next(run[i], actions[i]) == Some(run[i + 1])
  }

  ghost predicate Reachable(s: State) {
    exists run: seq<State>, actions: seq<Action> :: IsRun(run, actions) && run[0] == Boot && run[|run| - 1] == s
  }

  lemma BootReachable()
    ensures Reachable(Boot)
  {
    assert IsRun([Boot], []);
  }

  lemma ReachNext(s: State, a: Action, u: State)
    requires Reachable(s) && Next(s, a) == Some(u)
    ensures Reachable(u)
  {
    var run: seq<State>, actions: seq<Action> :| IsRun(run, actions) && run[0] == Boot && run[|run| - 1] == s;
    var longer, more := run + [u], actions + [a];
    forall i | 0 <= i < |more| ensures Next(longer[i], more[i]) == Some(longer[i + 1]) {
      if i < |actions| {
        assert Next(run[i], actions[i]) == Some(run[i + 1]);
      }
    }
    assert IsRun(longer, more);
  }
}
