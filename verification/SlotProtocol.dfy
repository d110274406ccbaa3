/** The slots of one connection under concurrency. A dispatcher acquires a slot, registers its command,
    and then three parties compete to settle it: the dispatcher itself, the worker's result, and the
    closing of the connection. Taking a command out of the table and giving its slot back are separate
    critical sections, so every intermediate state is visible to the others. */
module SlotProtocol {
  import opened SessionRuntime

  type DispatcherId = nat

  datatype Settler = Dispatcher | Worker | Closer

  /** Who took a command out of the table, and what that party puts on its channel. */
  datatype Verdict = Verdict(settler: Settler, outcome: Outcome)

  /** The dispatcher leaves its own channel empty, the worker's reply is never empty, closing is an error. */
  predicate Fitting(v: Verdict) {
    match v.settler
    case Dispatcher => v.outcome.Nothing?
    case Worker => v.outcome.Result? || v.outcome.Failed?
    case Closer => v.outcome.Closed?
  }

  /** held: slots acquired, no command registered yet. settling: commands taken out of the table whose
      slot is not back yet. settledBy: who took each command out, and with what outcome. channels: the result
      channels closed so far, and what they carry. closing: done is signalled; swept: the table was emptied. */
  datatype Conn = Conn(
    slots: SlotTable,
    held: map<DispatcherId, Capability>,
    pending: map<CommandId, Capability>,
    settling: map<CommandId, Capability>,
    settledBy: map<CommandId, Verdict>,
    channels: map<CommandId, Outcome>,
    closing: bool,
    swept: bool)

  datatype Action =
    | Acquire(who: DispatcherId, c: Capability)
    | GiveBack(who: DispatcherId)
    | Register(who: DispatcherId, command: CommandId)
    | Settle(command: CommandId, verdict: Verdict)
    | FreeSlot(command: CommandId)
    | Deliver(command: CommandId)
    | SignalClose
    | Sweep

  /** The command id has never been registered on this connection: ids are random UUIDs. */
  predicate Fresh(s: Conn, command: CommandId) { command !in s.pending && command !in s.settledBy }

  predicate Enabled(s: Conn, a: Action) {
    match a
    case Acquire(who, _) => who !in s.held
    case GiveBack(who) => who in s.held
    case Register(who, command) => who in s.held && Fresh(s, command)
    case Settle(_, v) => !v.settler.Closer? && Fitting(v)
    case FreeSlot(command) => command in s.settling
    case Deliver(command) => command in s.settledBy && command !in s.settling
    case SignalClose => true
    case Sweep => s.closing && !s.swept
  }

  /** registerPending looks at done under the lock of the table it writes. */
  function Registered(s: Conn, who: DispatcherId, command: CommandId): Conn
    requires who in s.held
  {
    if s.closing then s
    else s.(held := s.held - {who}, pending := s.pending[command := s.held[who]])
  }

  function Next(s: Conn, a: Action): Conn
    requires Enabled(s, a)
  {
    match a
    case Acquire(who, c) =>
      s.(slots := Acquired(s.slots, c), held := if CanAcquire(s.slots, c) then s.held[who := c] else s.held)
    case GiveBack(who) =>
      s.(slots := Released(s.slots, s.held[who]), held := s.held - {who})
    case Register(who, command) => Registered(s, who, command)
    case Settle(command, v) =>
      if command !in s.pending then s
      else s.(pending := s.pending - {command},
              settling := s.settling[command := s.pending[command]],
              settledBy := s.settledBy[command := v])
    case FreeSlot(command) =>
      s.(slots := Released(s.slots, s.settling[command]), settling := s.settling - {command})
    case Deliver(command) =>
      // closeOnce: a channel that is closed stays as it is.
      if command in s.channels then s else s.(channels := s.channels[command := s.settledBy[command].outcome])
    case SignalClose => s.(closing := true)
    case Sweep =>
      s.(pending := map[],
         settling := s.settling + s.pending,
         settledBy := s.settledBy + (map x | x in s.pending :: Verdict(Closer, Closed)),
         swept := true)
  }

  // ---------------------------------------------------------------- conservation

  /** Every taken slot of a capability is accounted for: acquired, waiting, or on its way back. */
  ghost predicate Balanced(s: Conn) {
    forall c | c in s.slots ::
      && s.slots[c].inflight == Count(s.held, c) + Count(s.pending, c) + Count(s.settling, c)
      && s.slots[c].inflight <= Limit(s.slots[c])
  }

  /** Slots are held only for capabilities the worker declared. */
  ghost predicate Declared(s: Conn) {
    && (forall x | x in s.held :: s.held[x] in s.slots)
    && (forall x | x in s.pending :: s.pending[x] in s.slots)
    && (forall x | x in s.settling :: s.settling[x] in s.slots)
  }

  /** Waiting, being settled, settled: a command is in the table or has been taken out, never both. */
  ghost predicate Lifecycle(s: Conn) {
    && s.pending.Keys !! s.settledBy.Keys
    && s.settling.Keys <= s.settledBy.Keys
    && (s.swept ==> s.closing && s.pending == map[])
  }

  /** A closed channel belongs to a command whose slot is back, and carries what its settler decided. */
  ghost predicate Truthful(s: Conn) {
    && (forall x | x in s.settledBy :: Fitting(s.settledBy[x]))
    && (forall x | x in s.channels ::
          x in s.settledBy && x !in s.settling && s.channels[x] == s.settledBy[x].outcome)
  }

  ghost predicate Inv(s: Conn) { Balanced(s) && Declared(s) && Lifecycle(s) && Truthful(s) }

  function Opened(declared: map<Capability, int>): Conn {
    Conn(map c | c in declared :: Slots(declared[c], 0), map[], map[], map[], map[], map[], false, false)
  }

  lemma NothingCounts<K>(entries: map<K, Capability>, c: Capability)
    requires entries.Keys == {}
    ensures Count(entries, c) == 0
  {
    CountBound(entries, c);
  }

  lemma OpenedInv(declared: map<Capability, int>)
    ensures Inv(Opened(declared))
  {
    var s := Opened(declared);
    forall c | c in s.slots
      ensures s.slots[c].inflight == Count(s.held, c) + Count(s.pending, c) + Count(s.settling, c)
    {
      NothingCounts(s.held, c);
      NothingCounts(s.pending, c);
    }
  }

  /** A held slot is visible in the count of its capability. */
  lemma CountedOnce<K>(entries: map<K, Capability>, k: K)
    requires k in entries
    ensures Count(entries, entries[k]) >= 1
  {
    CountRemoved(entries, k, entries[k]);
  }

  lemma AcquireBalances(s: Conn, who: DispatcherId, c: Capability)
    requires Balanced(s) && Enabled(s, Acquire(who, c))
    ensures Balanced(Next(s, Acquire(who, c)))
  {
    var u := Next(s, Acquire(who, c));
    forall x | x in u.slots && CanAcquire(s.slots, c)
      ensures Count(u.held, x) == Count(s.held, x) + if x == c then 1 else 0
    {
      CountAdded(s.held, who, c, x);
    }
  }

  lemma GiveBackBalances(s: Conn, who: DispatcherId)
    requires Balanced(s) && Declared(s) && Enabled(s, GiveBack(who))
    ensures Balanced(Next(s, GiveBack(who)))
    ensures s.held[who] in s.slots && s.slots[s.held[who]].inflight > 0
  {
    CountedOnce(s.held, who);
    forall x | x in s.slots ensures Count(s.held - {who}, x) + (if x == s.held[who] then 1 else 0) == Count(s.held, x) {
      CountRemoved(s.held, who, x);
    }
  }

  lemma RegisterBalances(s: Conn, who: DispatcherId, command: CommandId)
    requires Balanced(s) && Enabled(s, Register(who, command))
    ensures Balanced(Next(s, Register(who, command)))
  {
    forall x | x in s.slots
      ensures Count(s.held - {who}, x) + Count(s.pending[command := s.held[who]], x) ==
          Count(s.held, x) + Count(s.pending, x)
    {
      CountRemoved(s.held, who, x);
      CountAdded(s.pending, command, s.held[who], x);
    }
  }

  lemma SettleBalances(s: Conn, command: CommandId, v: Verdict)
    requires Balanced(s) && Lifecycle(s) && Enabled(s, Settle(command, v))
    ensures Balanced(Next(s, Settle(command, v)))
  {
    if command in s.pending {
      forall x | x in s.slots
        ensures Count(s.pending - {command}, x) + Count(s.settling[command := s.pending[command]], x) ==
                Count(s.pending, x) + Count(s.settling, x)
      {
        CountRemoved(s.pending, command, x);
        CountAdded(s.settling, command, s.pending[command], x);
      }
    }
  }

  lemma FreeSlotBalances(s: Conn, command: CommandId)
    requires Balanced(s) && Declared(s) && Enabled(s, FreeSlot(command))
    ensures Balanced(Next(s, FreeSlot(command)))
    ensures s.settling[command] in s.slots && s.slots[s.settling[command]].inflight > 0
  {
    var u, c := Next(s, FreeSlot(command)), s.settling[command];
    CountedOnce(s.settling, command);
    assert u.slots == Released(s.slots, c) && u.held == s.held && u.pending == s.pending;
    forall x | x in u.slots
      ensures u.slots[x].inflight == Count(u.held, x) + Count(u.pending, x) + Count(u.settling, x)
      ensures u.slots[x].inflight <= Limit(u.slots[x])
    {
      CountRemoved(s.settling, command, x);
    }
  }

  lemma SweepBalances(s: Conn)
    requires Balanced(s) && Lifecycle(s) && Enabled(s, Sweep)
    ensures Balanced(Next(s, Sweep))
  {
    var u := Next(s, Sweep);
    forall x | x in s.slots
      ensures Count(u.pending, x) + Count(u.settling, x) == Count(s.pending, x) + Count(s.settling, x)
    {
      NothingCounts(u.pending, x);
      CountMerged(s.settling, s.pending, x);
    }
  }

  lemma NextBalances(s: Conn, a: Action)
    requires Inv(s) && Enabled(s, a)
    ensures Balanced(Next(s, a))
  {
    match a
    case Acquire(who, c) => AcquireBalances(s, who, c);
    case GiveBack(who) => GiveBackBalances(s, who);
    case Register(who, command) => RegisterBalances(s, who, command);
    case Settle(command, v) => SettleBalances(s, command, v);
    case FreeSlot(command) => FreeSlotBalances(s, command);
    case Deliver(_) =>
    case SignalClose =>
    case Sweep => SweepBalances(s);
  }

  lemma NextKeepsLifecycle(s: Conn, a: Action)
    requires Lifecycle(s) && Enabled(s, a)
    ensures Lifecycle(Next(s, a))
  {
  }

  lemma NextKeepsDeclared(s: Conn, a: Action)
    requires Declared(s) && Enabled(s, a)
    ensures Declared(Next(s, a))
  {
  }

  lemma NextKeepsTruthful(s: Conn, a: Action)
    requires Lifecycle(s) && Truthful(s) && Enabled(s, a)
    ensures Truthful(Next(s, a))
  {
  }

  lemma NextKeeps(s: Conn, a: Action)
    requires Inv(s) && Enabled(s, a)
    ensures Inv(Next(s, a))
  {
    NextBalances(s, a);
    NextKeepsLifecycle(s, a);
    NextKeepsDeclared(s, a);
    NextKeepsTruthful(s, a);
  }

  // ---------------------------------------------------------------- whole runs

  ghost predicate IsRun(run: seq<Conn>, actions: seq<Action>) {
    && |run| == |actions| + 1
    && forall i | 0 <= i < |actions| :: Enabled(run[i], actions[i]) && run[i + 1] == Next(run[i], actions[i])
  }

  lemma RunStep(run: seq<Conn>, actions: seq<Action>, i: nat)
    requires IsRun(run, actions) && i < |actions|
    ensures Enabled(run[i], actions[i]) && run[i + 1] == Next(run[i], actions[i])
  {
  }

  /** Slots are conserved in every state of every run of a connection. */
  lemma {:induction false} SlotsConserved(declared: map<Capability, int>, run: seq<Conn>, actions: seq<Action>, i: nat)
    requires IsRun(run, actions) && run[0] == Opened(declared) && i < |run|
    ensures Inv(run[i])
  {
    if i == 0 {
      OpenedInv(declared);
    } else {
      SlotsConserved(declared, run, actions, i - 1);
      RunStep(run, actions, i - 1);
      NextKeeps(run[i - 1], actions[i - 1]);
    }
  }

  /** The slot a step gives back, if it is a release. */
  function Freed(s: Conn, a: Action): Capability
    requires Enabled(s, a) && (a.GiveBack? || a.FreeSlot?)
  {
    if a.GiveBack? then s.held[a.who] else s.settling[a.command]
  }

  /** The `inflight > 0` guard of a release never hides one: each release really gives a slot back. */
  lemma ReleaseNeverHidden(s: Conn, a: Action)
    requires Inv(s) && Enabled(s, a) && (a.GiveBack? || a.FreeSlot?)
    ensures var c := Freed(s, a);
      && c in s.slots && s.slots[c].inflight > 0
      && Next(s, a).slots == s.slots[c := s.slots[c].(inflight := s.slots[c].inflight - 1)]
  {
    SomethingTaken(s, a);
    assert Next(s, a).slots == Released(s.slots, Freed(s, a));
  }

  lemma SomethingTaken(s: Conn, a: Action)
    requires Balanced(s) && Declared(s) && Enabled(s, a) && (a.GiveBack? || a.FreeSlot?)
    ensures Freed(s, a) in s.slots && s.slots[Freed(s, a)].inflight > 0
  {
    if a.GiveBack? {
      CountedOnce(s.held, a.who);
    } else {
      CountedOnce(s.settling, a.command);
    }
  }

  /** When nobody is between two steps, no slot is taken. */
  lemma QuiescentIsFree(s: Conn, c: Capability)
    requires Inv(s) && c in s.slots && s.held.Keys == {} && s.pending.Keys == s.settling.Keys == {}
    ensures s.slots[c].inflight == 0
  {
    NothingCounts(s.held, c);
    NothingCounts(s.pending, c);
    NothingCounts(s.settling, c);
  }

  // ---------------------------------------------------------------- settlement

  /** Once taken out of the table a command stays out, its verdict stands, a slot given back stays given back, and
      a closed channel keeps what it carries. */
  ghost predicate Stays(s: Conn, u: Conn, command: CommandId) {
    command in s.settledBy ==>
      && command !in u.pending && command in u.settledBy && u.settledBy[command] == s.settledBy[command]
      && (command !in s.settling ==> command !in u.settling)
      && (command in s.channels ==> command in u.channels && u.channels[command] == s.channels[command])
  }

  /** A waiting command leaves the table only into a settler's hands. */
  ghost predicate Leaves(s: Conn, u: Conn, command: CommandId) {
    command in s.pending && command !in u.pending ==> command in u.settledBy
  }

  lemma SettledOnce(s: Conn, a: Action, command: CommandId)
    requires Lifecycle(s) && Truthful(s) && Enabled(s, a)
    ensures Stays(s, Next(s, a), command)
  {
  }

  lemma LeavesBySettlement(s: Conn, a: Action, command: CommandId)
    requires Enabled(s, a)
    ensures Leaves(s, Next(s, a), command)
  {
  }

  lemma RunStays(declared: map<Capability, int>, run: seq<Conn>, actions: seq<Action>, i: nat, command: CommandId)
    requires IsRun(run, actions) && run[0] == Opened(declared) && i < |actions|
    ensures Stays(run[i], run[i + 1], command) && Leaves(run[i], run[i + 1], command)
  {
    SlotsConserved(declared, run, actions, i);
    RunStep(run, actions, i);
    SettledOnce(run[i], actions[i], command);
    LeavesBySettlement(run[i], actions[i], command);
  }

  /** Stays, chained over the states between i and j. */
  lemma {:induction false} StaysOver(states: seq<Conn>, i: nat, j: nat, command: CommandId)
    requires i <= j < |states| && command in states[i].settledBy && command !in states[i].pending
    requires forall k | 0 <= k < |states| - 1 :: Stays(states[k], states[k + 1], command)
    ensures command in states[j].settledBy && Stays(states[i], states[j], command)
    decreases j
  {
    if j > i {
      StaysOver(states, i, j - 1, command);
      assert Stays(states[j - 1], states[j - 1 + 1], command);
    }
  }

  /** Step i takes the command out of the table of waiting commands. */
  ghost predicate LeavesAt(states: seq<Conn>, i: nat, command: CommandId)
    requires i + 1 < |states|
  {
    command in states[i].pending && command !in states[i + 1].pending
  }

  /** Step i gives the command's slot back. */
  ghost predicate FreedAt(states: seq<Conn>, i: nat, command: CommandId)
    requires i + 1 < |states|
  {
    command in states[i].settling && command !in states[i + 1].settling
  }

  /** Settlement as a statement about a sequence of states. */
  ghost predicate ExactlyOnce(states: seq<Conn>, command: CommandId) {
    && (forall i, j | 0 <= i < j < |states| - 1 :: !(LeavesAt(states, i, command) && LeavesAt(states, j, command)))
    && (forall i, j | 0 <= i < j < |states| - 1 :: !(FreedAt(states, i, command) && FreedAt(states, j, command)))
    && (forall i, j | 0 <= i <= j < |states| && command in states[i].channels ::
          && command in states[j].channels && states[j].channels[command] == states[i].channels[command]
          && command in states[j].settledBy && Fitting(states[j].settledBy[command])
          && states[j].channels[command] == states[j].settledBy[command].outcome)
  }

  ghost predicate Lawful(states: seq<Conn>, command: CommandId) {
    && (forall k | 0 <= k < |states| :: Lifecycle(states[k]) && Truthful(states[k]))
    && (forall k | 0 <= k < |states| - 1 ::
          Stays(states[k], states[k + 1], command) && Leaves(states[k], states[k + 1], command))
  }

  lemma LeavesAtMostOnce(states: seq<Conn>, i: nat, j: nat, command: CommandId)
    requires Lawful(states, command) && i < j < |states| - 1 && LeavesAt(states, i, command)
    ensures !LeavesAt(states, j, command)
  {
    assert Leaves(states[i], states[i + 1], command);
    StaysOver(states, i + 1, j, command);
    assert Lifecycle(states[j]);
  }

  lemma FreedAtMostOnce(states: seq<Conn>, i: nat, j: nat, command: CommandId)
    requires Lawful(states, command) && i < j < |states| - 1 && FreedAt(states, i, command)
    ensures !FreedAt(states, j, command)
  {
    assert Lifecycle(states[i]) && Stays(states[i], states[i + 1], command);
    StaysOver(states, i + 1, j, command);
  }

  lemma OutcomeFixed(states: seq<Conn>, i: nat, j: nat, command: CommandId)
    requires Lawful(states, command) && i <= j < |states| && command in states[i].channels
    ensures command in states[j].channels && states[j].channels[command] == states[i].channels[command]
    ensures command in states[j].settledBy && Fitting(states[j].settledBy[command])
    ensures states[j].channels[command] == states[j].settledBy[command].outcome
  {
    assert Truthful(states[i]) && Lifecycle(states[i]) && Truthful(states[j]);
    StaysOver(states, i, j, command);
  }

  lemma OncePerCommand(states: seq<Conn>, command: CommandId)
    requires Lawful(states, command)
    ensures ExactlyOnce(states, command)
  {
    forall i, j | 0 <= i < j < |states| - 1 && LeavesAt(states, i, command)
      ensures !LeavesAt(states, j, command)
    {
      LeavesAtMostOnce(states, i, j, command);
    }
    forall i, j | 0 <= i < j < |states| - 1 && FreedAt(states, i, command)
      ensures !FreedAt(states, j, command)
    {
      FreedAtMostOnce(states, i, j, command);
    }
    forall i, j | 0 <= i <= j < |states| && command in states[i].channels
      ensures command in states[j].channels && states[j].channels[command] == states[i].channels[command]
      ensures command in states[j].settledBy && Fitting(states[j].settledBy[command])
      ensures states[j].channels[command] == states[j].settledBy[command].outcome
    {
      OutcomeFixed(states, i, j, command);
    }
  }

  /** Exactly-once settlement, over every run of a connection: a command leaves the table at most once and gives its
      slot back at most once; and once its channel is closed it carries, for good, the outcome of the one party
      that took it out - nothing, a reply or the closing error according to who that was. */
  lemma ExactlyOnceOverRuns(declared: map<Capability, int>, run: seq<Conn>, actions: seq<Action>, command: CommandId)
    requires IsRun(run, actions) && run[0] == Opened(declared)
    ensures ExactlyOnce(run, command)
  {
    forall k | 0 <= k < |run|
      ensures Lifecycle(run[k]) && Truthful(run[k])
    {
      SlotsConserved(declared, run, actions, k);
    }
    forall k | 0 <= k < |run| - 1
      ensures Stays(run[k], run[k + 1], command) && Leaves(run[k], run[k + 1], command)
    {
      RunStays(declared, run, actions, k, command);
    }
    OncePerCommand(run, command);
  }

  lemma {:induction false} SweptForGood(states: seq<Conn>, i: nat, j: nat)
    requires i <= j < |states| && states[i].swept
    requires forall k | 0 <= k < |states| - 1 :: states[k].swept ==> states[k + 1].swept
    ensures states[j].swept
    decreases j
  {
    if j > i {
      SweptForGood(states, i, j - 1);
      assert states[j - 1].swept ==> states[j - 1 + 1].swept;
    }
  }

  /** Once the close has emptied the table nothing can wait any more. */
  lemma NothingPendingAfterSweep(declared: map<Capability, int>, run: seq<Conn>, actions: seq<Action>, i: nat, j: nat)
    requires IsRun(run, actions) && run[0] == Opened(declared) && i <= j < |run| && run[i].swept
    ensures run[j].swept && run[j].pending == map[]
  {
    forall k | 0 <= k < |run| - 1
      ensures run[k].swept ==> run[k + 1].swept
    {
      RunStep(run, actions, k);
    }
    SweptForGood(run, i, j);
    SlotsConserved(declared, run, actions, j);
  }

  /** Registering conserves slots if and only if the id is not already waiting: overwriting a waiting
      command would lose its slot for good. */
  lemma ReusedIdLeaksSlot(s: Conn, who: DispatcherId, command: CommandId)
    requires Inv(s) && who in s.held && !s.closing
    ensures Balanced(Registered(s, who, command)) <==> command !in s.pending
  {
    var u := Registered(s, who, command);
    var c := s.held[who];
    forall x ensures Count(u.held, x) + (if x == c then 1 else 0) == Count(s.held, x) {
      CountRemoved(s.held, who, x);
    }
    if command !in s.pending {
      forall x ensures Count(u.pending, x) == Count(s.pending, x) + if x == c then 1 else 0 {
        CountAdded(s.pending, command, c, x);
      }
    } else {
      var lost := s.pending[command];
      CountRemoved(s.pending, command, lost);
      CountAdded(s.pending - {command}, command, c, lost);
      assert (s.pending - {command})[command := c] == u.pending;
      assert lost in s.slots;
    }
  }
}
