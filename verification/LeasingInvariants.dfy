/** What every reachable state of the leasing tables satisfies, and what the operator's remedies leave behind. */
module LeasingInvariants {
  import opened Core
  import opened Ordering
  import opened LeaseTables
  import opened LeasingRuns

  // ----- entries and leases -----

  function LeasesNaming(t: Tables, entry: string): set<string> {
    set id | id in t.leases && t.leases[id].entry == entry
  }

  ghost predicate ResourcesFormed(t: Tables) {
    forall r <- t.resources ::
      ValidName(r) && 1 <= t.resources[r].capacity <= MAX_CAPACITY && 0 < t.resources[r].timeToLive
  }

  ghost predicate EntriesFormed(t: Tables) {
    forall e <- t.entries ::
      && e != "" && t.entries[e].agent != "" && t.entries[e].resource in t.resources
      && (t.entries[e].state == Waiting <==> t.entries[e].resolvedAt.None?)
  }

  ghost predicate Named(t: Tables, entry: string) {
    exists id :: id in t.leases && t.leases[id].entry == entry
  }

  /** A granted entry and its one lease point at each other. */
  ghost predicate Paired(t: Tables) {
    && (forall id <- t.leases ::
          var lease := t.leases[id];
          && lease.entry in t.entries && t.entries[lease.entry].state == Granted
          && lease.resource == t.entries[lease.entry].resource && lease.agent == t.entries[lease.entry].agent)
    && (forall i <- t.leases, j <- t.leases :: t.leases[i].entry == t.leases[j].entry ==> i == j)
    && (forall e <- t.entries :: t.entries[e].state == Granted ==> Named(t, e))
  }

  ghost predicate Consistent(t: Tables) {
    ResourcesFormed(t) && EntriesFormed(t) && Paired(t)
  }

  /** No lease is created and no entry becomes granted. */
  ghost predicate SamePairs(t: Tables, t': Tables) {
    && t'.leases.Keys == t.leases.Keys
    && (forall id <- t.leases ::
          (t'.leases[id].resource, t'.leases[id].agent, t'.leases[id].entry)
          == (t.leases[id].resource, t.leases[id].agent, t.leases[id].entry))
    && t.entries.Keys <= t'.entries.Keys
    && (forall e <- t.entries ::
          && (t'.entries[e].resource, t'.entries[e].agent) == (t.entries[e].resource, t.entries[e].agent)
          && (t'.entries[e].state == Granted <==> t.entries[e].state == Granted))
    && (forall e <- t'.entries :: t'.entries[e].state == Granted ==> e in t.entries)
  }

  lemma SamePairsStayPaired(t: Tables, t': Tables)
    requires Paired(t) && SamePairs(t, t')
    ensures Paired(t')
  {
    forall e <- t'.entries | t'.entries[e].state == Granted ensures Named(t', e) {
      assert Named(t, e);
      var id :| id in t.leases && t.leases[id].entry == e;
      assert t'.leases[id].entry == e;
    }
  }

  /** One entry that was waiting becomes granted, with a new lease naming it. */
  ghost predicate PairAdded(t: Tables, t': Tables, entry: string, leaseId: string) {
    && entry in t.entries && t.entries[entry].state == Waiting
    && leaseId !in t.leases
    && (exists lease ::
          && t'.leases == t.leases[leaseId := lease]
          && lease.entry == entry && lease.resource == t.entries[entry].resource && lease.agent == t.entries[entry].agent)
    && (exists at :: t'.entries == t.entries[entry := t.entries[entry].(state := Granted, resolvedAt := Some(at))])
  }

  lemma PairAddedStaysPaired(t: Tables, t': Tables, entry: string, leaseId: string)
    requires Paired(t) && PairAdded(t, t', entry, leaseId)
    ensures Paired(t')
  {
    assert t'.leases[leaseId].entry == entry;
    forall e <- t'.entries | t'.entries[e].state == Granted ensures Named(t', e) {
      if e != entry {
        assert Named(t, e);
        var id :| id in t.leases && t.leases[id].entry == e;
        assert t'.leases[id].entry == e;
      }
    }
  }

  lemma GrantAddsPair(s: State, op: Op)
    requires Enabled(s, op) && Grants(s, op)
    ensures PairAdded(s.tables, Step(s, op).tables, op.id, op.leaseId)
  {
    var t, t' := s.tables, Step(s, op).tables;
    var entry := t.entries[op.id];
    var lease := Lease(entry.resource, entry.agent, op.id, s.now, s.now + t.resources[entry.resource].timeToLive, None);
    assert t'.leases == t.leases[op.leaseId := lease];
    assert t'.entries == t.entries[op.id := entry.(state := Granted, resolvedAt := Some(s.now))];
  }

  lemma OtherStepsKeepPairs(s: State, op: Op)
    requires Enabled(s, op) && !Grants(s, op)
    ensures SamePairs(s.tables, Step(s, op).tables)
  {
    StepKeepsEntries(s, op);
    StepKeepsLeases(s, op);
  }

  lemma StepKeepsResourcesFormed(s: State, op: Op)
    requires Enabled(s, op) && ResourcesFormed(s.tables)
    ensures ResourcesFormed(Step(s, op).tables)
  {
    if op.Define? {
    } else {
      assert Step(s, op).tables.resources == s.tables.resources;
    }
  }

  lemma StepKeepsEntriesFormed(s: State, op: Op)
    requires Enabled(s, op) && EntriesFormed(s.tables)
    ensures EntriesFormed(Step(s, op).tables)
  {
    var t, t' := s.tables, Step(s, op).tables;
    StepKeepsEntries(s, op);
    forall e <- t'.entries
      ensures && e != "" && t'.entries[e].agent != "" && t'.entries[e].resource in t'.resources
              && (t'.entries[e].state == Waiting <==> t'.entries[e].resolvedAt.None?)
    {
      StepKeepsResources(s, op, t'.entries[e].resource);
    }
  }

  lemma StepPreserves(s: State, op: Op)
    requires Consistent(s.tables) && Enabled(s, op)
    ensures Consistent(Step(s, op).tables)
  {
    StepKeepsResourcesFormed(s, op);
    StepKeepsEntriesFormed(s, op);
    if Grants(s, op) {
      GrantAddsPair(s, op);
      PairAddedStaysPaired(s.tables, Step(s, op).tables, op.id, op.leaseId);
    } else {
      OtherStepsKeepPairs(s, op);
      SamePairsStayPaired(s.tables, Step(s, op).tables);
    }
  }

  lemma {:induction false} ReachableIsConsistent(now: Instant, ops: seq<Op>)
    requires Legal(State(now, EMPTY), ops)
    ensures Consistent(Exec(State(now, EMPTY), ops).tables)
  {
    if ops != [] {
      ReachableIsConsistent(now, ops[..|ops| - 1]);
      StepPreserves(Exec(State(now, EMPTY), ops[..|ops| - 1]), ops[|ops| - 1]);
    }
  }

  /** In every reachable state an entry is granted exactly when one lease names it, and otherwise none does. */
  lemma GrantedExactlyWhenLeased(now: Instant, ops: seq<Op>, entry: string)
    requires Legal(State(now, EMPTY), ops) && entry in Exec(State(now, EMPTY), ops).tables.entries
    ensures var t := Exec(State(now, EMPTY), ops).tables;
      && (t.entries[entry].state == Granted <==> |LeasesNaming(t, entry)| == 1)
      && (t.entries[entry].state != Granted <==> LeasesNaming(t, entry) == {})
  {
    ReachableIsConsistent(now, ops);
    var t := Exec(State(now, EMPTY), ops).tables;
    if t.entries[entry].state == Granted {
      assert Named(t, entry);
      var id :| id in t.leases && t.leases[id].entry == entry;
      assert LeasesNaming(t, entry) == {id};
    } else {
      assert LeasesNaming(t, entry) == {};
    }
  }

  /** A resolved entry never changes again, and neither does a released lease. */
  lemma {:induction false} FinalRowsNeverChange(s: State, ops: seq<Op>, id: string)
    requires Legal(s, ops)
    ensures id in s.tables.entries && s.tables.entries[id].state != Waiting ==>
      id in Exec(s, ops).tables.entries && Exec(s, ops).tables.entries[id] == s.tables.entries[id]
    ensures id in s.tables.leases && s.tables.leases[id].releasedAt.Some? ==>
      id in Exec(s, ops).tables.leases && Exec(s, ops).tables.leases[id] == s.tables.leases[id]
  {
    if ops != [] {
      FinalRowsNeverChange(s, ops[..|ops| - 1], id);
      StepKeepsEntries(Exec(s, ops[..|ops| - 1]), ops[|ops| - 1]);
      StepKeepsLeases(Exec(s, ops[..|ops| - 1]), ops[|ops| - 1]);
    }
  }

  /** An attempt succeeds exactly when the entry heads its queue and its resource has room. */
  lemma GrantExactly(s: State, id: string, leaseId: string)
    requires Consistent(s.tables) && Waits(s, id)
    requires leaseId != "" && leaseId !in s.tables.leases
    ensures GrantTried(s.tables, id, leaseId, s.now).Ok?
    ensures var resource := s.tables.entries[id].resource;
      GrantTried(s.tables, id, leaseId, s.now).value.granted
      <==> IsHead(s.tables, resource, id) && Holding(s, resource) < Capacity(s, resource)
  {
  }

  /**
   Nobody is stuck: in every reachable state, whenever a resource has room and somebody waiting, exactly
   one of those waiting gets a slot if it tries, whatever new identifier its lease is given.
   */
  lemma ExactlyOneCanBeServed(now: Instant, ops: seq<Op>, resource: string, leaseId: string) returns (id: string)
    requires Legal(State(now, EMPTY), ops)
    requires var s := Exec(State(now, EMPTY), ops);
      && Holding(s, resource) < Capacity(s, resource) && WaitingOn(s.tables, resource) != {}
      && leaseId != "" && leaseId !in s.tables.leases
    ensures var s := Exec(State(now, EMPTY), ops);
      && id in WaitingOn(s.tables, resource)
      && forall other <- WaitingOn(s.tables, resource) :: Grants(s, TryGrant(other, leaseId)) <==> other == id
  {
    var s := Exec(State(now, EMPTY), ops);
    ReachableIsConsistent(now, ops);
    id := HeadExists(s.tables, resource);
    assert IsHead(s.tables, resource, id);
    forall other <- WaitingOn(s.tables, resource) ensures Grants(s, TryGrant(other, leaseId)) <==> other == id {
      GrantExactly(s, other, leaseId);
    }
  }

  // ----- the operator's remedies -----

  /** The leases a transaction changed. */
  function ChangedLeases(t: Tables, t': Tables): set<string> {
    set id | id in t'.leases && (id !in t.leases || t.leases[id] != t'.leases[id])
  }

  lemma {:induction false} RowsCount(rows: seq<string>, s: set<string>)
    requires Rows(rows, s)
    ensures |rows| == |s|
  {
    if rows == [] {
      assert forall id :: id in s ==> id in rows;
      assert s == {};
    } else {
      var last := rows[|rows| - 1];
      forall id ensures id in rows[..|rows| - 1] <==> id in s - {last} {
        if id in s - {last} {
          assert id in rows;
        }
      }
      RowsCount(rows[..|rows| - 1], s - {last});
      assert last in rows;
    }
  }

  /**
   After an agent is cleared out it has no active lease at any instant from the commit on, although
   `at` may lag the clock, and it waits nowhere. Nothing else moves, and the reported count is the
   number of leases changed.
   */
  lemma HeldByIsCleared(s: State, op: Op, later: Instant)
    requires Enabled(s, op) && op.ReleaseHeldBy? && Transaction(s, op).Ok?
    requires s.now <= later
    ensures var t, t' := s.tables, Step(s, op).tables;
      && ActiveOf(t', op.agent, later) == {}
      && WaitingOf(t', op.agent) == {}
      && t'.leases.Keys == t.leases.Keys && t'.entries.Keys == t.entries.Keys && t'.resources == t.resources
      && (forall id <- t.leases :: t.leases[id].agent != op.agent || !t.leases[id].Active(op.at) ==> t'.leases[id] == t.leases[id])
      && (forall id <- t.entries :: id !in WaitingOf(t, op.agent) ==> t'.entries[id] == t.entries[id])
      && (forall id <- WaitingOf(t, op.agent) :: t'.entries[id].state == Cancelled)
      && |op.leaseRows| == |ChangedLeases(t, t')|
      && |t'.audit| == |t.audit| + |op.leaseRows|
  {
    var t, t' := s.tables, Step(s, op).tables;
    assert ChangedLeases(t, t') == ActiveOf(t, op.agent, op.at);
    RowsCount(op.leaseRows, ActiveOf(t, op.agent, op.at));
  }

  /** After a resource is freed no lease on it is active from the commit on, and nothing else moves. */
  lemma ResourceIsFreed(s: State, op: Op, later: Instant)
    requires Enabled(s, op) && op.FreeResource? && Transaction(s, op).Ok?
    requires s.now <= later
    ensures var t, t' := s.tables, Step(s, op).tables;
      && ActiveOn(t', op.resource, later) == {}
      && t'.leases.Keys == t.leases.Keys && t'.entries == t.entries && t'.resources == t.resources
      && (forall id <- t.leases :: t.leases[id].resource != op.resource || !t.leases[id].Active(op.at) ==> t'.leases[id] == t.leases[id])
      && |op.rows| == |ChangedLeases(t, t')|
      && |t'.audit| == |t.audit| + |op.rows|
  {
    var t, t' := s.tables, Step(s, op).tables;
    assert ChangedLeases(t, t') == ActiveOn(t, op.resource, op.at);
    RowsCount(op.rows, ActiveOn(t, op.resource, op.at));
  }

  /** A cleared queue is empty, with one cancellation record for each entry taken out of it. */
  lemma QueueIsCleared(s: State, op: Op)
    requires Enabled(s, op) && op.ClearQueue? && Transaction(s, op).Ok?
    ensures var t, t' := s.tables, Step(s, op).tables;
      && WaitingOn(t', op.resource) == {}
      && t'.leases == t.leases && t'.resources == t.resources && t'.entries.Keys == t.entries.Keys
      && (forall id <- t.entries :: id !in WaitingOn(t, op.resource) ==> t'.entries[id] == t.entries[id])
      && |op.rows| == |WaitingOn(t, op.resource)|
      && (forall id <- WaitingOn(t, op.resource) :: AuditEntry(op.actor, QueueCancelled, op.resource, id, op.at) in t'.audit)
  {
    var t, t' := s.tables, Step(s, op).tables;
    RowsCount(op.rows, WaitingOn(t, op.resource));
    forall id <- WaitingOn(t, op.resource)
      ensures AuditEntry(op.actor, QueueCancelled, op.resource, id, op.at) in t'.audit
    {
      assert id in op.rows;
      var i :| 0 <= i < |op.rows| && op.rows[i] == id;
      assert t'.audit[|t.audit| + i] == AuditEntry(op.actor, QueueCancelled, op.resource, id, op.at);
    }
  }

  /** The reaper ends exactly the leases that had run out when it looked, and never an active one. */
  lemma ReaperTakesOnlyExpired(s: State, op: Op)
    requires Enabled(s, op) && op.ReapExpired?
    ensures var t, t' := s.tables, Step(s, op).tables;
      && ChangedLeases(t, t') == RanOut(t, op.at)
      && ChangedLeases(t, t') !! (set id | id in t.leases && t.leases[id].Active(s.now))
      && RanOut(t', op.at) == {}
      && t'.entries == t.entries && t'.resources == t.resources
      && |op.rows| == |ChangedLeases(t, t')|
  {
    var t, t' := s.tables, Step(s, op).tables;
    assert ChangedLeases(t, t') == RanOut(t, op.at);
    RowsCount(op.rows, RanOut(t, op.at));
  }

  // ----- the audit log -----

  const GRANTS := {LeaseGranted}
  const ENDINGS := {LeaseReleased, LeaseExpired}

  /** How many records of the given kinds name this lease. */
  function Mentions(audit: seq<AuditEntry>, id: string, kinds: set<AuditAction>): nat {
    if audit == [] then 0
    else
      var last := audit[|audit| - 1];
      Mentions(audit[..|audit| - 1], id, kinds) + (if last.about == id && last.action in kinds then 1 else 0)
  }

  lemma {:induction false} MentionsAppend(a: seq<AuditEntry>, b: seq<AuditEntry>, id: string, kinds: set<AuditAction>)
    ensures Mentions(a + b, id, kinds) == Mentions(a, id, kinds) + Mentions(b, id, kinds)
  {
    if b == [] {
      assert a + b == a;
    } else {
      assert (a + b)[..|a + b| - 1] == a + b[..|b| - 1];
      MentionsAppend(a, b[..|b| - 1], id, kinds);
    }
  }

  lemma MentionsSingle(record: AuditEntry, id: string, kinds: set<AuditAction>)
    ensures Mentions([record], id, kinds) == (if record.about == id && record.action in kinds then 1 else 0)
  {
    assert [record][..0] == [];
  }

  lemma {:induction false} RecordsMentionEachRow(t: Tables, rows: seq<string>, actor: string, action: AuditAction,
                                                 at: Instant, id: string, kinds: set<AuditAction>)
    requires forall row <- rows :: row in t.leases
    requires forall i, j :: 0 <= i < j < |rows| ==> rows[i] != rows[j]
    ensures Mentions(LeaseRecords(t, rows, actor, action, at), id, kinds)
            == (if id in rows && action in kinds then 1 else 0)
  {
    if rows != [] {
      var prefix := rows[..|rows| - 1];
      assert LeaseRecords(t, rows, actor, action, at)[..|rows| - 1] == LeaseRecords(t, prefix, actor, action, at);
      RecordsMentionEachRow(t, prefix, actor, action, at, id, kinds);
      assert rows == prefix + [rows[|rows| - 1]];
    }
  }

  lemma {:induction false} EntryRecordsMentionNoLease(rows: seq<string>, actor: string, resource: string, at: Instant,
                                                      id: string, kinds: set<AuditAction>)
    requires QueueCancelled !in kinds
    ensures Mentions(EntryRecords(rows, actor, resource, at), id, kinds) == 0
  {
    if rows != [] {
      var prefix := rows[..|rows| - 1];
      assert EntryRecords(rows, actor, resource, at)[..|rows| - 1] == EntryRecords(prefix, actor, resource, at);
      EntryRecordsMentionNoLease(prefix, actor, resource, at, id, kinds);
    }
  }

  /** Every lease has exactly one grant record, and is released exactly when some record says it ended. */
  ghost predicate Accounted(t: Tables, id: string) {
    && Mentions(t.audit, id, GRANTS) == (if id in t.leases then 1 else 0)
    && (Mentions(t.audit, id, ENDINGS) >= 1 <==> id in t.leases && t.leases[id].releasedAt.Some?)
  }

  /** The records a step appends, when its transaction commits. */
  ghost function NewRecords(s: State, op: Op): (records: seq<AuditEntry>)
    requires Enabled(s, op) && Transaction(s, op).Ok?
    ensures Step(s, op).tables.audit == s.tables.audit + records
  {
    var t := s.tables;
    match op
    case ReleaseHeldBy(actor, _, at, rows, _) => LeaseRecords(t, rows, actor, LeaseReleased, at)
    case FreeResource(actor, _, at, rows) => LeaseRecords(t, rows, actor, LeaseReleased, at)
    case ReapExpired(at, rows) => LeaseRecords(t, rows, SYSTEM_ACTOR, LeaseExpired, at)
    case ClearQueue(actor, resource, at, rows) => EntryRecords(rows, actor, resource, at)
    case Enqueue(id, agent, resource, _, requestedAt) => [AuditEntry(agent, QueueJoined, resource, id, requestedAt)]
    case Define(actor, name, _, _, _) => if actor == "" then [] else [AuditEntry(actor, ResourceDefined, name, name, s.now)]
    case TryGrant(id, leaseId) =>
      if Grants(s, op) then [AuditEntry(t.entries[id].agent, LeaseGranted, t.entries[id].resource, leaseId, s.now)] else []
    case Renew(agent, leaseId) => [AuditEntry(agent, LeaseRenewed, t.leases[leaseId].resource, leaseId, s.now)]
    case Release(agent, leaseId, _) => [AuditEntry(agent, LeaseReleased, t.leases[leaseId].resource, leaseId, s.now)]
    case Cancel(agent, id, _) => [AuditEntry(agent, QueueCancelled, t.entries[id].resource, id, s.now)]
    case Pass(_) => []
    case Abandon(_, _, _) => []
  }

  /** The leases a step's records say it ended. */
  ghost function EndedBy(op: Op): set<string> {
    match op
    case Release(_, leaseId, _) => {leaseId}
    case ReleaseHeldBy(_, _, _, leaseRows, _) => set id | id in leaseRows
    case FreeResource(_, _, _, rows) => set id | id in rows
    case ReapExpired(_, rows) => set id | id in rows
    case _ => {}
  }

  lemma NewRecordsMention(s: State, op: Op, id: string, kinds: set<AuditAction>)
    requires Enabled(s, op) && Transaction(s, op).Ok? && (kinds == GRANTS || kinds == ENDINGS)
    ensures Mentions(NewRecords(s, op), id, kinds)
            == if kinds == GRANTS then One(Grants(s, op) && op.leaseId == id) else One(id in EndedBy(op))
  {
    assert LeaseGranted !in ENDINGS && QueueCancelled !in kinds;
    match op
    case ReleaseHeldBy(actor, _, at, rows, _) =>
      RecordsMentionEachRow(s.tables, rows, actor, LeaseReleased, at, id, kinds);
    case FreeResource(actor, _, at, rows) =>
      RecordsMentionEachRow(s.tables, rows, actor, LeaseReleased, at, id, kinds);
    case ReapExpired(at, rows) =>
      RecordsMentionEachRow(s.tables, rows, SYSTEM_ACTOR, LeaseExpired, at, id, kinds);
    case ClearQueue(actor, resource, at, rows) =>
      EntryRecordsMentionNoLease(rows, actor, resource, at, id, kinds);
    case _ =>
      SingleRecordMentions(s, op, id, kinds);
  }

  lemma SingleRecordMentions(s: State, op: Op, id: string, kinds: set<AuditAction>)
    requires Enabled(s, op) && Transaction(s, op).Ok? && (kinds == GRANTS || kinds == ENDINGS)
    requires !op.ReleaseHeldBy? && !op.FreeResource? && !op.ReapExpired? && !op.ClearQueue?
    ensures Mentions(NewRecords(s, op), id, kinds)
            == if kinds == GRANTS then One(Grants(s, op) && op.leaseId == id) else One(id in EndedBy(op))
  {
    match op
    case Enqueue(entry, agent, resource, _, requestedAt) =>
      MentionsSingle(AuditEntry(agent, QueueJoined, resource, entry, requestedAt), id, kinds);
    case Define(actor, name, _, _, _) =>
      MentionsSingle(AuditEntry(actor, ResourceDefined, name, name, s.now), id, kinds);
    case TryGrant(_, _) =>
      if Grants(s, op) {
        MentionsSingle(NewRecords(s, op)[0], id, kinds);
      }
    case Renew(agent, leaseId) =>
      MentionsSingle(AuditEntry(agent, LeaseRenewed, s.tables.leases[leaseId].resource, leaseId, s.now), id, kinds);
    case Release(agent, leaseId, _) =>
      MentionsSingle(AuditEntry(agent, LeaseReleased, s.tables.leases[leaseId].resource, leaseId, s.now), id, kinds);
    case Cancel(agent, entry, _) =>
      MentionsSingle(AuditEntry(agent, QueueCancelled, s.tables.entries[entry].resource, entry, s.now), id, kinds);
    case _ =>
  }

  lemma StepEnds(s: State, op: Op, id: string)
    requires Enabled(s, op) && Transaction(s, op).Ok?
    ensures var t, t' := s.tables, Step(s, op).tables;
      && (id in t'.leases <==> id in t.leases || (Grants(s, op) && op.leaseId == id))
      && (id in t'.leases && t'.leases[id].releasedAt.Some?
          <==> id in EndedBy(op) || (id in t.leases && t.leases[id].releasedAt.Some?))
      && (Grants(s, op) ==> op.leaseId !in t.leases)
  {
  }

  lemma StepKeepsAccounts(s: State, op: Op, id: string)
    requires Enabled(s, op) && Accounted(s.tables, id)
    ensures Accounted(Step(s, op).tables, id)
  {
    if Transaction(s, op).Ok? {
      NewRecordsMention(s, op, id, GRANTS);
      NewRecordsMention(s, op, id, ENDINGS);
      StepEnds(s, op, id);
      MentionsAppend(s.tables.audit, NewRecords(s, op), id, GRANTS);
      MentionsAppend(s.tables.audit, NewRecords(s, op), id, ENDINGS);
    }
  }

  lemma {:induction false} EveryLeaseIsAccountedFor(now: Instant, ops: seq<Op>, id: string)
    requires Legal(State(now, EMPTY), ops)
    ensures Accounted(Exec(State(now, EMPTY), ops).tables, id)
  {
    if ops != [] {
      EveryLeaseIsAccountedFor(now, ops[..|ops| - 1], id);
      StepKeepsAccounts(Exec(State(now, EMPTY), ops[..|ops| - 1]), ops[|ops| - 1], id);
    }
  }
}
