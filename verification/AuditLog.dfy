/** The audit log over whole runs: nothing is in it that did not happen. */
module AuditLog {
  import opened Core
  import opened LeaseTables
  import opened LeasingRuns
  import opened LeasingInvariants
  import opened LeaseTerms

  /** What a record says is what the tables show. */
  ghost predicate Holds(t: Tables, r: AuditEntry) {
    match r.action
    case ResourceDefined => r.target in t.resources && r.about == r.target
    case QueueJoined =>
      r.about in t.entries
      && var entry := t.entries[r.about]; (entry.agent, entry.resource, entry.requestedAt) == (r.actor, r.target, r.at)
    case QueueCancelled =>
      r.about in t.entries
      && var entry := t.entries[r.about]; (entry.state, entry.resource, entry.resolvedAt) == (Cancelled, r.target, Some(r.at))
    case LeaseGranted =>
      r.about in t.leases
      && var lease := t.leases[r.about]; (lease.agent, lease.resource, lease.acquiredAt) == (r.actor, r.target, r.at)
    case LeaseRenewed =>
      r.about in t.leases && var lease := t.leases[r.about]; (lease.agent, lease.resource) == (r.actor, r.target)
    case LeaseReleased =>
      r.about in t.leases
      && var lease := t.leases[r.about]; lease.resource == r.target && lease.releasedAt.Some? && lease.releasedAt.value <= r.at
    case LeaseExpired =>
      r.about in t.leases
      && var lease := t.leases[r.about];
         r.actor == SYSTEM_ACTOR && lease.resource == r.target && lease.releasedAt == Some(r.at) && lease.expiresAt <= r.at
  }

  ghost predicate Believable(s: State, r: AuditEntry) {
    r.actor != "" && r.at <= s.now && Holds(s.tables, r)
  }

  ghost predicate Truthful(s: State) {
    && (forall r <- s.tables.audit :: Believable(s, r))
    && (forall id <- s.tables.leases :: s.tables.leases[id].releasedAt.Some? ==> s.tables.leases[id].releasedAt.value <= s.now)
  }

  lemma StepKeepsRecord(s: State, op: Op, r: AuditEntry)
    requires Enabled(s, op) && Believable(s, r)
    requires r.action == QueueCancelled ==> s.tables.entries[r.about].state != Waiting
    ensures Believable(Step(s, op), r)
  {
    StepKeepsLeases(s, op);
    if r.about in s.tables.entries {
      StepKeepsEntry(s, op, r.about);
    }
    StepKeepsResources(s, op, r.target);
  }

  lemma BulkRecordsHold(s: State, op: Op, r: AuditEntry)
    requires Enabled(s, op) && Succeeds(s, op) && (op.ReleaseHeldBy? || op.FreeResource? || op.ReapExpired?)
    requires r in NewRecords(s, op)
    ensures Believable(Step(s, op), r)
  {
    var rows := if op.ReleaseHeldBy? then op.leaseRows else op.rows;
    var i :| 0 <= i < |rows| && NewRecords(s, op)[i] == r;
    assert rows[i] in rows && rows[i] in Bulk(s, op).2;
    BulkEndsAreRecorded(s, op, rows[i]);
  }

  lemma ClearingRecordsHold(s: State, op: Op, r: AuditEntry)
    requires Enabled(s, op) && Succeeds(s, op) && op.ClearQueue?
    requires r in NewRecords(s, op)
    ensures Believable(Step(s, op), r)
  {
    var i :| 0 <= i < |op.rows| && NewRecords(s, op)[i] == r;
    assert op.rows[i] in op.rows;
    BulkCancelsAreDated(s, op, op.rows[i]);
  }

  lemma NewRecordsHold(s: State, op: Op, r: AuditEntry)
    requires Enabled(s, op) && Consistent(s.tables) && Truthful(s) && Succeeds(s, op)
    requires r in NewRecords(s, op)
    ensures Believable(Step(s, op), r)
  {
    if op.ReleaseHeldBy? || op.FreeResource? || op.ReapExpired? {
      BulkRecordsHold(s, op, r);
    } else if op.ClearQueue? {
      ClearingRecordsHold(s, op, r);
    } else {
      SingleRecordHolds(s, op, r);
    }
  }

  lemma SingleRecordHolds(s: State, op: Op, r: AuditEntry)
    requires Enabled(s, op) && Consistent(s.tables) && Truthful(s) && Succeeds(s, op)
    requires !op.ReleaseHeldBy? && !op.FreeResource? && !op.ReapExpired? && !op.ClearQueue?
    requires r in NewRecords(s, op)
    ensures Believable(Step(s, op), r)
  {
  }

  lemma StepKeepsReleaseDates(s: State, op: Op, id: string)
    requires Enabled(s, op) && Truthful(s) && id in Step(s, op).tables.leases
    requires Step(s, op).tables.leases[id].releasedAt.Some?
    ensures Step(s, op).tables.leases[id].releasedAt.value <= Step(s, op).now
  {
  }

  lemma StepKeepsTruth(s: State, op: Op)
    requires Enabled(s, op) && Consistent(s.tables) && Truthful(s)
    ensures Truthful(Step(s, op))
  {
    forall r <- Step(s, op).tables.audit ensures Believable(Step(s, op), r) {
      if r in s.tables.audit {
        StepKeepsRecord(s, op, r);
      } else {
        assert Succeeds(s, op) && Step(s, op).tables.audit == s.tables.audit + NewRecords(s, op);
        NewRecordsHold(s, op, r);
      }
    }
    forall id <- Step(s, op).tables.leases | Step(s, op).tables.leases[id].releasedAt.Some?
      ensures Step(s, op).tables.leases[id].releasedAt.value <= Step(s, op).now
    {
      StepKeepsReleaseDates(s, op, id);
    }
  }

  /** In every reachable state each record names an actor and what it says is true of the tables. */
  lemma {:induction false} NothingIsMadeUp(now: Instant, ops: seq<Op>)
    requires Reachable(now, ops)
    ensures Truthful(Reached(now, ops))
  {
    if ops != [] {
      var before := ops[..|ops| - 1];
      NothingIsMadeUp(now, before);
      ReachableIsConsistent(now, before);
      StepKeepsTruth(Reached(now, before), ops[|ops| - 1]);
    }
  }
}
