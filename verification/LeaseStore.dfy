/** The tables as the store keeps them, changed one statement at a time. */
module LeaseStore {
  import opened Core
  import opened Ordering
  import opened LeaseTables

  class Store {
    var resources: map<string, Resource>
    var entries: map<string, QueueEntry>
    var leases: map<string, Lease>
    var audit: seq<AuditEntry>

    function View(): Tables
      reads this
    {
      Tables(resources, entries, leases, audit)
    }

    constructor ()
      ensures View() == Tables(map[], map[], map[], [])
    {
      resources, entries, leases, audit := map[], map[], map[], [];
    }

    /** Puts back what a failed transaction found. */
    method Rollback(saved: Tables)
      modifies this
      ensures View() == saved
    {
      resources, entries, leases, audit := saved.resources, saved.entries, saved.leases, saved.audit;
    }

    method Append(actor: string, action: AuditAction, target: string, about: string, at: Instant)
      returns (r: Result<()>)
      modifies this
      ensures Effect(old(View()), View(), Audited(old(View()), actor, action, target, about, at), r)
    {
      if actor == "" {
        return Err(InvalidArgument);
      }
      audit := audit + [AuditEntry(actor, action, target, about, at)];
      return Ok(());
    }

    method InsertEntry(id: string, entry: QueueEntry) returns (r: Result<()>)
      modifies this
      ensures entry.agent == "" || id == "" || !ValidName(entry.resource) ==> r == Err(InvalidArgument)
      ensures r.Err? ==> View() == old(View())
      ensures r.Ok? ==> View() == old(View()).(entries := old(entries)[id := entry])
      ensures entry.agent != "" && id != "" && ValidName(entry.resource) ==>
        r == if id in old(entries) then Err(AlreadyExists) else Ok(())
    {
      if id == "" || entry.agent == "" || !ValidName(entry.resource) {
        return Err(InvalidArgument);
      }
      if id in entries {
        return Err(AlreadyExists);
      }
      entries := entries[id := entry];
      return Ok(());
    }

    method ResolveEntry(id: string, state: EntryState, at: Instant) returns (r: Result<()>)
      modifies this
      ensures Effect(old(View()), View(), Resolved(old(View()), id, state, at), r)
    {
      if !state.Terminal() {
        return Err(InvalidArgument);
      }
      if id !in entries || entries[id].state != Waiting {
        return Err(Conflict);
      }
      entries := entries[id := entries[id].(state := state, resolvedAt := Some(at))];
      return Ok(());
    }

    method CreateLease(id: string, lease: Lease) returns (r: Result<()>)
      modifies this
      ensures Effect(old(View()), View(), LeaseCreated(old(View()), id, lease), r)
    {
      if id == "" || lease.agent == "" || lease.expiresAt <= lease.acquiredAt {
        return Err(InvalidArgument);
      }
      if id in leases {
        return Err(AlreadyExists);
      }
      leases := leases[id := lease];
      return Ok(());
    }

    method ExtendLease(id: string, expiresAt: Instant, at: Instant) returns (r: Result<()>)
      modifies this
      ensures Effect(old(View()), View(), LeaseExtended(old(View()), id, expiresAt, at), r)
    {
      if id !in leases {
        return Err(NotFound);
      }
      if !leases[id].Active(at) {
        return Err(Conflict);
      }
      leases := leases[id := leases[id].(expiresAt := expiresAt)];
      return Ok(());
    }

    method EndLease(id: string, at: Instant)
      modifies this
      ensures View() == LeaseEnded(old(View()), id, at)
    {
      if id in leases && leases[id].releasedAt.None? {
        leases := leases[id := leases[id].(releasedAt := Some(at))];
      }
    }

    /** The queue in service order. */
    method WaitingInOrder(resource: string) returns (rows: seq<string>)
      ensures InLine(View(), resource, rows)
    {
      var keys := set id | id in entries && IsWaitingOn(View(), resource, id) :: EntryKey(id, entries[id]);
      var ordered := Order(keys);
      forall i | 0 <= i < |ordered|
        ensures IsWaitingOn(View(), resource, ordered[i].id) && ordered[i] == EntryKey(ordered[i].id, entries[ordered[i].id])
      {
        assert ordered[i] in ordered && ordered[i] in keys;
      }
      rows := seq(|ordered|, i requires 0 <= i < |ordered| => ordered[i].id);
      forall i, j | 0 <= i < j < |rows| ensures rows[i] != rows[j] {
        assert KeyLess(ordered[i], ordered[j]);
        KeyTrichotomy(ordered[i], ordered[j]);
      }
      forall id | id in WaitingOn(View(), resource) ensures id in rows {
        assert EntryKey(id, entries[id]) in keys;
        var i :| 0 <= i < |ordered| && ordered[i] == EntryKey(id, entries[id]);
        assert rows[i] == id;
      }
      assert EntryKeys(View(), rows) == ordered;
    }
  }

  /** The rows of an unordered query, as some sequence. */
  method Fetch(s: set<string>) returns (rows: seq<string>)
    ensures Rows(rows, s)
  {
    rows := [];
    var remaining := s;
    while remaining != {}
      invariant remaining <= s
      invariant Rows(rows, s - remaining)
      decreases remaining
    {
      var id :| id in remaining;
      rows := rows + [id];
      remaining := remaining - {id};
    }
  }
}
