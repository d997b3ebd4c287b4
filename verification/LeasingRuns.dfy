/**
 The leasing service as a state machine over committed transactions, with a monotone clock, and
 what holds over every run of it.
 */
module LeasingRuns {
  import opened Core
  import opened Ordering
  import opened LeaseTables

  datatype State = State(now: Instant, tables: Tables)

  const EMPTY := Tables(map[], map[], map[], [])

  /**
   One step. Bulk steps carry the `now` they read before their transaction began, and the order in
   which the database happened to return the rows.
   */
  datatype Op =
    | Pass(micros: nat)
    | Define(actor: string, name: string, capacity: int, ttlNanos: int, defaultTtlNanos: int)
    | Enqueue(id: string, agent: string, resource: string, priority: int, requestedAt: Instant)
    | TryGrant(id: string, leaseId: string)
    | Renew(agent: string, leaseId: string)
    | Release(agent: string, leaseId: string, force: bool)
    | Cancel(agent: string, id: string, force: bool)
    | ReleaseHeldBy(actor: string, agent: string, at: Instant, leaseRows: seq<string>, entryRows: seq<string>)
    | FreeResource(actor: string, resource: string, at: Instant, rows: seq<string>)
    | ClearQueue(actor: string, resource: string, at: Instant, rows: seq<string>)
    | ReapExpired(at: Instant, rows: seq<string>)
    | Abandon(id: string, outcome: EntryState, at: Instant)

  /** What the world guarantees a step: clock readings are not in the future, rows answer the query. */
  ghost predicate Enabled(s: State, op: Op) {
    match op
    case Enqueue(_, _, _, _, requestedAt) => requestedAt <= s.now
    case ReleaseHeldBy(_, agent, at, leaseRows, entryRows) =>
      && at <= s.now
      && Rows(leaseRows, ActiveOf(s.tables, agent, at))
      && Rows(entryRows, WaitingOf(s.tables, agent))
    case FreeResource(_, resource, at, rows) => at <= s.now && Rows(rows, ActiveOn(s.tables, resource, at))
    case ClearQueue(_, resource, at, rows) => at <= s.now && Rows(rows, WaitingOn(s.tables, resource))
    case ReapExpired(at, rows) => at <= s.now && Rows(rows, RanOut(s.tables, at))
    case Abandon(_, outcome, at) => at <= s.now && (outcome == Cancelled || outcome == Expired)
    case _ => true
  }

  ghost function Transaction(s: State, op: Op): Result<Tables>
    requires Enabled(s, op)
  {
    var t := s.tables;
    match op
    case Pass(_) => Ok(t)
    case Define(actor, name, capacity, ttl, default) => Defined(t, actor, name, capacity, ttl, default, s.now)
    case Enqueue(id, agent, resource, priority, requestedAt) => Enqueued(t, id, agent, resource, priority, requestedAt)
    case TryGrant(id, leaseId) =>
      (match GrantTried(t, id, leaseId, s.now)
       case Ok(attempt) => Ok(attempt.tables)
       case Err(e) => Err(e))
    case Renew(agent, leaseId) => Renewed(t, agent, leaseId, s.now)
    case Release(agent, leaseId, force) => Released(t, agent, leaseId, force, s.now)
    case Cancel(agent, id, force) => Withdrawn(t, agent, id, force, s.now)
    case ReleaseHeldBy(actor, agent, at, leaseRows, entryRows) => HeldByReleased(t, actor, agent, at, leaseRows, entryRows)
    case FreeResource(actor, resource, at, rows) => ResourceFreed(t, actor, resource, at, rows)
    case ClearQueue(actor, resource, at, rows) => QueueCleared(t, actor, resource, at, rows)
    case ReapExpired(at, rows) => Reaped(t, at, rows)
    case Abandon(id, outcome, at) => Resolved(t, id, outcome, at)
  }

  /** A failed transaction leaves the tables as they were. */
  ghost function Step(s: State, op: Op): State
    requires Enabled(s, op)
  {
    State(if op.Pass? then s.now + op.micros else s.now,
          match Transaction(s, op) case Ok(t) => t case Err(_) => s.tables)
  }

  ghost predicate Grants(s: State, op: Op) {
    op.TryGrant? && GrantTried(s.tables, op.id, op.leaseId, s.now).Ok?
    && GrantTried(s.tables, op.id, op.leaseId, s.now).value.granted
  }

  ghost predicate Legal(s: State, ops: seq<Op>)
    decreases |ops|, 0
  {
    ops == [] || (Legal(s, ops[..|ops| - 1]) && Enabled(Exec(s, ops[..|ops| - 1]), ops[|ops| - 1]))
  }

  ghost function Exec(s: State, ops: seq<Op>): State
    requires Legal(s, ops)
    decreases |ops|, 1
  {
    if ops == [] then s else Step(Exec(s, ops[..|ops| - 1]), ops[|ops| - 1])
  }

  // ----- what one step does to the leases -----

  lemma StepKeepsLeases(s: State, op: Op)
    requires Enabled(s, op)
    ensures s.now <= Step(s, op).now
    ensures forall id <- s.tables.leases ::
      var before := s.tables.leases[id];
      && id in Step(s, op).tables.leases
      && var after := Step(s, op).tables.leases[id];
         && (after.resource, after.agent, after.entry, after.acquiredAt)
            == (before.resource, before.agent, before.entry, before.acquiredAt)
         && (before.releasedAt.Some? ==> after == before)
         && (after.Active(Step(s, op).now) ==> before.Active(s.now))
    ensures forall id <- Step(s, op).tables.leases :: id in s.tables.leases || (Grants(s, op) && id == op.leaseId)
  {
  }

  lemma GrantNeedsRoom(s: State, op: Op)
    requires Enabled(s, op) && Grants(s, op)
    ensures op.id in s.tables.entries
    ensures var r := s.tables.entries[op.id].resource;
      && r in s.tables.resources
      && IsHead(s.tables, r, op.id)
      && |ActiveOn(s.tables, r, s.now)| < s.tables.resources[r].capacity
      && op.leaseId !in s.tables.leases
      && op.leaseId in Step(s, op).tables.leases
      && Step(s, op).tables.leases[op.leaseId].resource == r
      && Step(s, op).tables.leases[op.leaseId].entry == op.id
  {
  }

  // ----- capacity -----

  function Capacity(s: State, resource: string): int {
    if resource in s.tables.resources then s.tables.resources[resource].capacity else 0
  }

  function Holding(s: State, resource: string): nat {
    |ActiveOn(s.tables, resource, s.now)|
  }

  /** A step never adds more than the one lease it grants, and it grants only below capacity. */
  lemma StepRaisesOnlyBelowCapacity(s: State, op: Op, resource: string)
    requires Enabled(s, op)
    ensures Holding(Step(s, op), resource) <= Holding(s, resource)
            || (Grants(s, op) && Holding(s, resource) < Capacity(s, resource)
                && Holding(Step(s, op), resource) <= Holding(s, resource) + 1)
  {
    StepKeepsLeases(s, op);
    var before := ActiveOn(s.tables, resource, s.now);
    var after := ActiveOn(Step(s, op).tables, resource, Step(s, op).now);
    if Grants(s, op) && s.tables.entries[op.id].resource == resource {
      GrantNeedsRoom(s, op);
      assert after <= before + {op.leaseId};
      SubsetSize(after, before + {op.leaseId});
    } else {
      if Grants(s, op) {
        GrantNeedsRoom(s, op);
      }
      assert after <= before;
      SubsetSize(after, before);
    }
  }

  ghost predicate Defines(s: State, op: Op, resource: string)
    requires Enabled(s, op)
  {
    op.Define? && op.name == resource && Transaction(s, op).Ok?
  }

  /** Only a Define that lowers the capacity can leave a resource over capacity. */
  lemma OnlyLoweringOverfills(s: State, op: Op, resource: string)
    requires Enabled(s, op)
    requires resource in s.tables.resources && Holding(s, resource) <= Capacity(s, resource)
    requires Holding(Step(s, op), resource) > Capacity(Step(s, op), resource)
    ensures Defines(s, op, resource) && op.capacity < Capacity(s, resource)
  {
    StepRaisesOnlyBelowCapacity(s, op, resource);
  }

  /** While a resource is full or over capacity no step raises the number of active leases. */
  lemma FullNeverGrows(s: State, op: Op, resource: string)
    requires Enabled(s, op) && Capacity(s, resource) <= Holding(s, resource)
    ensures Holding(Step(s, op), resource) <= Holding(s, resource)
  {
    StepRaisesOnlyBelowCapacity(s, op, resource);
  }

  /** How many leases were active when the resource was last defined; at the start if it never was. */
  ghost function HoldingAtLastDefine(s: State, ops: seq<Op>, resource: string): nat
    requires Legal(s, ops)
  {
    if ops == [] then Holding(s, resource)
    else
      var prefix := ops[..|ops| - 1];
      if Defines(Exec(s, prefix), ops[|ops| - 1], resource) then Holding(Exec(s, ops), resource)
      else HoldingAtLastDefine(s, prefix, resource)
  }

  function Max(a: int, b: int): int {
    if a < b then b else a
  }

  lemma StepKeepsResources(s: State, op: Op, resource: string)
    requires Enabled(s, op)
    ensures resource in s.tables.resources ==> resource in Step(s, op).tables.resources
    ensures !Defines(s, op, resource) ==>
      (resource in Step(s, op).tables.resources <==> resource in s.tables.resources)
      && Capacity(Step(s, op), resource) == Capacity(s, resource)
  {
  }

  /**
   Capacity over whole runs, from any starting state: a resource never has more active leases than
   the larger of its capacity now and what it had when it was last defined.
   */
  lemma {:induction false} CapacityHolds(s: State, ops: seq<Op>, resource: string)
    requires Legal(s, ops)
    ensures Holding(Exec(s, ops), resource)
            <= Max(Capacity(Exec(s, ops), resource), HoldingAtLastDefine(s, ops, resource))
  {
    if ops != [] {
      var prefix := ops[..|ops| - 1];
      var last := ops[|ops| - 1];
      CapacityHolds(s, prefix, resource);
      StepKeepsResources(Exec(s, prefix), last, resource);
      StepRaisesOnlyBelowCapacity(Exec(s, prefix), last, resource);
    }
  }

  /** Starting empty, if no Define ever lowers a capacity, the capacity itself is the bound. */
  ghost predicate NeverLowered(s: State, ops: seq<Op>, resource: string)
    requires Legal(s, ops)
  {
    ops == [] ||
    var prefix := ops[..|ops| - 1];
    var last := ops[|ops| - 1];
    && NeverLowered(s, prefix, resource)
    && (Defines(Exec(s, prefix), last, resource) ==> Capacity(Exec(s, prefix), resource) <= last.capacity)
  }

  lemma {:induction false} CapacityNeverExceeded(now: Instant, ops: seq<Op>, resource: string)
    requires Legal(State(now, EMPTY), ops) && NeverLowered(State(now, EMPTY), ops, resource)
    ensures Holding(Exec(State(now, EMPTY), ops), resource) <= Capacity(Exec(State(now, EMPTY), ops), resource)
  {
    if ops != [] {
      var prefix := ops[..|ops| - 1];
      var s := Exec(State(now, EMPTY), prefix);
      CapacityNeverExceeded(now, prefix, resource);
      StepKeepsResources(s, ops[|ops| - 1], resource);
      StepRaisesOnlyBelowCapacity(s, ops[|ops| - 1], resource);
    }
  }

  // ----- fairness -----

  /** The waiting entries that would be served before this one. */
  function Ahead(t: Tables, id: string): set<string>
    requires id in t.entries
  {
    set other | other in t.entries && IsWaitingOn(t, t.entries[id].resource, other)
                && KeyLess(EntryKey(other, t.entries[other]), EntryKey(id, t.entries[id]))
  }

  ghost predicate Waits(s: State, id: string) {
    id in s.tables.entries && s.tables.entries[id].state == Waiting
  }

  /** The step grants a slot on this entry's resource to somebody else. */
  ghost predicate Passes(s: State, op: Op, id: string)
    requires id in s.tables.entries
  {
    Grants(s, op) && op.id != id && s.tables.entries[op.id].resource == s.tables.entries[id].resource
  }

  /** The step adds an entry that will be served before this one. */
  ghost predicate Outranks(s: State, op: Op, id: string)
    requires Enabled(s, op) && id in s.tables.entries
  {
    && op.Enqueue? && Transaction(s, op).Ok?
    && op.resource == s.tables.entries[id].resource
    && KeyLess(Key(-op.priority, op.requestedAt, op.id), EntryKey(id, s.tables.entries[id]))
  }

  lemma StepKeepsEntry(s: State, op: Op, id: string)
    requires Enabled(s, op) && id in s.tables.entries
    ensures id in Step(s, op).tables.entries
    ensures var before, after := s.tables.entries[id], Step(s, op).tables.entries[id];
      && (after.resource, after.agent, after.priority, after.requestedAt)
         == (before.resource, before.agent, before.priority, before.requestedAt)
      && (after == before || (before.state == Waiting && after.state != Waiting && after.resolvedAt.Some?))
      && (after.state == Granted && before.state != Granted ==> Grants(s, op) && op.id == id)
      && (Grants(s, op) && op.id == id ==> after.state == Granted)
  {
  }

  lemma NewEntryWaits(s: State, op: Op, id: string)
    requires Enabled(s, op) && id in Step(s, op).tables.entries && id !in s.tables.entries
    ensures op.Enqueue? && op.id == id && Transaction(s, op).Ok?
    ensures Step(s, op).tables.entries[id] == QueueEntry(op.resource, op.agent, op.priority, Waiting, op.requestedAt, None)
  {
  }

  /** No step changes what an entry is or reopens it, only its own grant grants it, and only an enqueueing adds one. */
  lemma StepKeepsEntries(s: State, op: Op)
    requires Enabled(s, op)
    ensures forall id <- s.tables.entries ::
      var before := s.tables.entries[id];
      && id in Step(s, op).tables.entries
      && var after := Step(s, op).tables.entries[id];
         && (after.resource, after.agent, after.priority, after.requestedAt)
            == (before.resource, before.agent, before.priority, before.requestedAt)
         && (after == before || (before.state == Waiting && after.state != Waiting && after.resolvedAt.Some?))
         && (after.state == Granted && before.state != Granted ==> Grants(s, op) && op.id == id)
         && (Grants(s, op) && op.id == id ==> after.state == Granted)
    ensures forall id <- Step(s, op).tables.entries ::
      id in s.tables.entries
      || (op.Enqueue? && op.id == id && Transaction(s, op).Ok?
          && Step(s, op).tables.entries[id] == QueueEntry(op.resource, op.agent, op.priority, Waiting, op.requestedAt, None))
  {
    forall id <- s.tables.entries {
      StepKeepsEntry(s, op, id);
    }
    forall id <- Step(s, op).tables.entries | id !in s.tables.entries {
      NewEntryWaits(s, op, id);
    }
  }

  /** Whoever is served while an entry waits was ahead of it. */
  lemma ServedWasAhead(s: State, op: Op, id: string)
    requires Enabled(s, op) && Waits(s, id) && Passes(s, op, id)
    ensures op.id in Ahead(s.tables, id)
    ensures KeyLess(EntryKey(op.id, s.tables.entries[op.id]), EntryKey(id, s.tables.entries[id]))
  {
    GrantNeedsRoom(s, op);
  }

  ghost function One(b: bool): nat {
    if b then 1 else 0
  }

  lemma StepOvertakes(s: State, op: Op, id: string)
    requires Enabled(s, op) && Waits(s, id) && Waits(Step(s, op), id)
    ensures |Ahead(Step(s, op).tables, id)| + One(Passes(s, op, id))
            <= |Ahead(s.tables, id)| + One(Outranks(s, op, id))
  {
    StepKeepsEntries(s, op);
    var before := Ahead(s.tables, id);
    var after := Ahead(Step(s, op).tables, id);
    if Passes(s, op, id) {
      ServedWasAhead(s, op, id);
      assert after <= before - {op.id};
      SubsetSize(after, before - {op.id});
    } else if Outranks(s, op, id) {
      assert after <= before + {op.id};
      SubsetSize(after, before + {op.id});
    } else {
      assert after <= before;
      SubsetSize(after, before);
    }
  }

  /** The entry waits at every state of the run, first and last included. */
  ghost predicate WaitsThroughout(s: State, ops: seq<Op>, id: string)
    requires Legal(s, ops)
  {
    Waits(Exec(s, ops), id) && (ops == [] || WaitsThroughout(s, ops[..|ops| - 1], id))
  }

  ghost function Overtakings(s: State, ops: seq<Op>, id: string): nat
    requires Legal(s, ops) && WaitsThroughout(s, ops, id)
  {
    if ops == [] then 0
    else
      var prefix := ops[..|ops| - 1];
      Overtakings(s, prefix, id) + One(Passes(Exec(s, prefix), ops[|ops| - 1], id))
  }

  ghost function LaterArrivalsAhead(s: State, ops: seq<Op>, id: string): nat
    requires Legal(s, ops) && WaitsThroughout(s, ops, id)
  {
    if ops == [] then 0
    else
      var prefix := ops[..|ops| - 1];
      LaterArrivalsAhead(s, prefix, id) + One(Outranks(Exec(s, prefix), ops[|ops| - 1], id))
  }

  /**
   Bounded overtaking: while an entry waits, the slots granted to others on its resource number at
   most those ahead of it at the start plus the higher-ranked ones that arrived since.
   */
  lemma {:induction false} OvertakingIsBounded(s: State, ops: seq<Op>, id: string)
    requires Legal(s, ops) && WaitsThroughout(s, ops, id)
    ensures Waits(s, id)
    ensures Overtakings(s, ops, id) + |Ahead(Exec(s, ops).tables, id)|
            <= |Ahead(s.tables, id)| + LaterArrivalsAhead(s, ops, id)
  {
    if ops != [] {
      var prefix := ops[..|ops| - 1];
      OvertakingIsBounded(s, prefix, id);
      StepOvertakes(Exec(s, prefix), ops[|ops| - 1], id);
    }
  }
}
