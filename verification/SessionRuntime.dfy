/** One worker connection: capability slots and the table of commands waiting for a result. */
module SessionRuntime {
  import opened Common

  type Capability(==, !new)
  type CommandId(==, !new)

  const DEFAULT_MAX_INFLIGHT := 4

  datatype Slots = Slots(maxInflight: int, inflight: nat)

  function Limit(slots: Slots): nat { if slots.maxInflight <= 0 then DEFAULT_MAX_INFLIGHT else slots.maxInflight }

  type SlotTable = map<Capability, Slots>

  // ---------------------------------------------------------------- slots as values

  predicate CanAcquire(table: SlotTable, c: Capability) { c in table && table[c].inflight < Limit(table[c]) }

  /** tryAcquireCapability: a missing limit is filled in even when the slot is refused. */
  function Acquired(table: SlotTable, c: Capability): SlotTable {
    if c !in table then table
    else table[c := Slots(Limit(table[c]), if CanAcquire(table, c) then table[c].inflight + 1 else table[c].inflight)]
  }

  function Released(table: SlotTable, c: Capability): SlotTable {
    if c in table && table[c].inflight > 0 then table[c := table[c].(inflight := table[c].inflight - 1)] else table
  }

  /** Giving back what was just taken leaves the table as it was, but for a missing limit that was filled in; and a
      slot given back can be taken again. */
  lemma ReleaseUndoesAcquire(table: SlotTable, c: Capability)
    requires CanAcquire(table, c)
    ensures Released(Acquired(table, c), c) == table[c := table[c].(maxInflight := Limit(table[c]))]
    ensures CanAcquire(Released(Acquired(table, c), c), c)
  {
  }

  /** A full capability has room again after exactly one release. */
  lemma ReleaseMakesRoom(table: SlotTable, c: Capability)
    requires c in table && table[c].inflight == Limit(table[c])
    ensures !CanAcquire(table, c) && CanAcquire(Released(table, c), c)
    ensures !CanAcquire(Acquired(Released(table, c), c), c)
  {
  }

  /** How many entries of a map stand for capability c. */
  function Count<K>(entries: map<K, Capability>, c: Capability): nat {
    |set k | k in entries && entries[k] == c|
  }

  lemma CountBound<K>(entries: map<K, Capability>, c: Capability)
    ensures Count(entries, c) <= |entries.Keys|
  {
    var those := set k | k in entries && entries[k] == c;
    assert entries.Keys == those + (entries.Keys - those);
  }

  lemma CountAdded<K>(entries: map<K, Capability>, k: K, c: Capability, x: Capability)
    requires k !in entries
    ensures Count(entries[k := c], x) == Count(entries, x) + if x == c then 1 else 0
  {
    var more := entries[k := c];
    var before := set y | y in entries && entries[y] == x;
    var after := set y | y in more && more[y] == x;
    assert after == if x == c then before + {k} else before;
  }

  lemma CountRemoved<K>(entries: map<K, Capability>, k: K, x: Capability)
    requires k in entries
    ensures Count(entries - {k}, x) + (if x == entries[k] then 1 else 0) == Count(entries, x)
  {
    assert (entries - {k})[k := entries[k]] == entries;
    CountAdded(entries - {k}, k, entries[k], x);
  }

  lemma CountMerged<K>(a: map<K, Capability>, b: map<K, Capability>, x: Capability)
    requires a.Keys !! b.Keys
    ensures Count(a + b, x) == Count(a, x) + Count(b, x)
  {
    var left := set k | k in a && a[k] == x;
    var right := set k | k in b && b[k] == x;
    assert (set k | k in a + b && (a + b)[k] == x) == left + right;
  }

  /** The slots left after releasing one slot per entry. */
  function AllReleased<K>(table: SlotTable, entries: map<K, Capability>): SlotTable {
    map c | c in table ::
      table[c].(inflight := if table[c].inflight >= Count(entries, c) then table[c].inflight - Count(entries, c) else 0)
  }

  // ---------------------------------------------------------------- the connection

  /** What the waiting dispatcher finds on its channel, once it is closed. */
  datatype Outcome =
    | Nothing
    | Result(payload: string, message: Option<string>, completedAt: int)
    | Failed(code: string, completedAt: int)
    | Closed

  /** A command result as the worker sends it; completed is 0 when the worker gives no time. */
  datatype Reply = Reply(error: Option<string>, payload: string, completed: int)

  /** An error counts before a payload, and a reply with neither is an error of its own. echo reads the message out of
      an echo payload. */
  function Decode(reply: Reply, echo: string -> Option<string>, now: int): Outcome {
    var at := if reply.completed > 0 then reply.completed else now;
    if reply.error.Some? then Failed(reply.error.value, at)
    else if reply.payload != "" then Result(reply.payload, echo(reply.payload), at)
    else Failed("empty_result", at)
  }

  class ActiveSession {
    var capabilities: SlotTable
    var pending: map<CommandId, Capability>
    var closed: bool
    /** Channels closed so far, with what they carried. */
    var settled: map<CommandId, Outcome>

    constructor (declared: map<Capability, int>)
      ensures capabilities == map c | c in declared :: Slots(declared[c], 0)
      ensures pending == map[] && !closed && settled == map[]
    {
      capabilities := map c | c in declared :: Slots(declared[c], 0);
      pending, closed, settled := map[], false, map[];
    }

    method TryAcquire(c: Capability) returns (ok: bool)
      modifies this`capabilities
      ensures ok == CanAcquire(old(capabilities), c)
      ensures capabilities == Acquired(old(capabilities), c)
    {
      if c !in capabilities {
        return false;
      }
      var slots := capabilities[c];
      if slots.maxInflight <= 0 {
        slots := slots.(maxInflight := DEFAULT_MAX_INFLIGHT);
        capabilities := capabilities[c := slots];
      }
      if slots.inflight >= slots.maxInflight {
        return false;
      }
      capabilities := capabilities[c := slots.(inflight := slots.inflight + 1)];
      return true;
    }

    method Release(c: Capability)
      modifies this`capabilities
      ensures capabilities == Released(old(capabilities), c)
    {
      if c in capabilities && capabilities[c].inflight > 0 {
        capabilities := capabilities[c := capabilities[c].(inflight := capabilities[c].inflight - 1)];
      }
    }

    /** Refused once the connection is closed. */
    method Register(command: CommandId, c: Capability) returns (ok: bool)
      modifies this`pending
      ensures ok == !closed
      ensures pending == if ok then old(pending)[command := c] else old(pending)
    {
      if closed {
        return false;
      }
      pending := pending[command := c];
      return true;
    }

    /** Shared tail of unregister and resolve: whoever takes the command out of the table releases its
        slot and closes its channel; everybody later finds nothing to do. */
    method Settle(command: CommandId, outcome: Outcome) returns (mine: bool)
      modifies this`pending, this`capabilities, this`settled
      ensures mine == (command in old(pending))
      ensures pending == old(pending) - {command}
      ensures capabilities == if mine then Released(old(capabilities), old(pending)[command]) else old(capabilities)
      ensures settled == if mine && command !in old(settled) then old(settled)[command := outcome] else old(settled)
    {
      if command !in pending {
        return false;
      }
      var c := pending[command];
      pending := pending - {command};
      Release(c);
      if command !in settled {
        settled := settled[command := outcome];
      }
      return true;
    }

    /** The dispatcher gives up: nothing is put on the channel, unless the command was already settled. */
    method Unregister(command: CommandId)
      modifies this`pending, this`capabilities, this`settled
      ensures command !in pending && pending == old(pending) - {command}
      ensures settled.Keys == old(settled).Keys + (old(pending).Keys * {command})
      ensures forall x | x in settled :: settled[x] == if x in old(settled) then old(settled)[x] else Nothing
      ensures capabilities ==
        if command in old(pending) then Released(old(capabilities), old(pending)[command]) else old(capabilities)
    {
      var mine := Settle(command, Nothing);
    }

    /** The worker's reply reaches the dispatcher if nobody settled the command before. */
    method Resolve(command: CommandId, reply: Reply, echo: string -> Option<string>, now: int)
      returns (delivered: bool)
      requires pending.Keys !! settled.Keys
      modifies this`pending, this`capabilities, this`settled
      ensures delivered == (command in old(pending))
      ensures pending == old(pending) - {command} && pending.Keys !! settled.Keys
      ensures settled.Keys == old(settled).Keys + (old(pending).Keys * {command})
      ensures forall x | x in old(settled) :: settled[x] == old(settled)[x]
      ensures delivered ==> settled[command].Result? || settled[command].Failed?
      ensures delivered ==> (settled[command].Result? <==> reply.error.None? && reply.payload != "")
      ensures delivered && settled[command].Result? ==>
        settled[command].payload == reply.payload && settled[command].message == echo(reply.payload)
      ensures delivered && reply.error.Some? ==> settled[command].code == reply.error.value
      ensures delivered ==> settled[command].completedAt == if reply.completed > 0 then reply.completed else now
      ensures capabilities ==
        if delivered then Released(old(capabilities), old(pending)[command]) else old(capabilities)
    {
      delivered := Settle(command, Decode(reply, echo, now));
    }

    /** Every waiting command gets its slot back and the closing error; a second close does nothing. */
    method Close()
      requires pending.Keys !! settled.Keys
      modifies this
      ensures closed
      ensures old(closed) ==> capabilities == old(capabilities) && pending == old(pending) && settled == old(settled)
      ensures !old(closed) ==>
                && pending == map[]
                && capabilities == AllReleased(old(capabilities), old(pending))
                && settled == old(settled) + map command | command in old(pending) :: Closed
    {
      if closed {
        return;
      }
      closed := true;
      var taken := pending;
      pending := map[];
      var todo := taken.Keys;
      ClosingStarts(capabilities, taken, settled);
      while todo != {}
        invariant closed && pending == map[]
        invariant todo <= taken.Keys
        invariant Closing(old(capabilities), taken, old(settled), todo, capabilities, settled)
      {
        var command :| command in todo;
        ClosingStep(old(capabilities), taken, old(settled), todo, capabilities, settled, command);
        Release(taken[command]);
        if command !in settled {
          settled := settled[command := Closed];
        }
        todo := todo - {command};
      }
      ClosingEnds(old(capabilities), taken, old(settled), capabilities, settled);
    }
  }

  /** Close under way: the taken commands outside todo have been released and settled. */
  ghost predicate Closing(table0: SlotTable, taken: map<CommandId, Capability>, settled0: map<CommandId, Outcome>,
                          todo: set<CommandId>, table: SlotTable, settled: map<CommandId, Outcome>)
  {
    && table == AllReleased(table0, taken - todo)
    && settled.Keys == settled0.Keys + (taken.Keys - todo)
    && (forall x | x in settled :: settled[x] == if x in settled0 then settled0[x] else Closed)
  }

  lemma ClosingStarts(table: SlotTable, taken: map<CommandId, Capability>, settled: map<CommandId, Outcome>)
    ensures Closing(table, taken, settled, taken.Keys, table, settled)
  {
    assert taken - taken.Keys == map[];
    forall c ensures Count(taken - taken.Keys, c) == 0 {
      CountBound(taken - taken.Keys, c);
    }
    assert table == AllReleased(table, taken - taken.Keys);
  }

  lemma ClosingStep(table0: SlotTable, taken: map<CommandId, Capability>, settled0: map<CommandId, Outcome>,
                    todo: set<CommandId>, table: SlotTable, settled: map<CommandId, Outcome>, x: CommandId)
    requires Closing(table0, taken, settled0, todo, table, settled) && todo <= taken.Keys && x in todo
    requires taken.Keys !! settled0.Keys
    ensures x !in settled
    ensures Closing(table0, taken, settled0, todo - {x}, Released(table, taken[x]), settled[x := Closed])
  {
    var done := taken - todo;
    assert taken - (todo - {x}) == done[x := taken[x]];
    ReleasedOneMore(table0, done, x, taken[x]);
  }

  lemma ClosingEnds(table0: SlotTable, taken: map<CommandId, Capability>, settled0: map<CommandId, Outcome>,
                    table: SlotTable, settled: map<CommandId, Outcome>)
    requires Closing(table0, taken, settled0, {}, table, settled) && taken.Keys !! settled0.Keys
    ensures table == AllReleased(table0, taken)
    ensures settled == settled0 + map x | x in taken :: Closed
  {
    assert taken - {} == taken;
  }

  lemma ReleasedOneMore<K>(table: SlotTable, entries: map<K, Capability>, k: K, c: Capability)
    requires k !in entries
    ensures AllReleased(table, entries[k := c]) == Released(AllReleased(table, entries), c)
  {
    forall x ensures Count(entries[k := c], x) == Count(entries, x) + if x == c then 1 else 0 {
      CountAdded(entries, k, c, x);
    }
  }
}
