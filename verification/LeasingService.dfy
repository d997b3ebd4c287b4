/**
 The leasing service: each operation runs one transaction on the store, rolls it back if any
 statement fails, and then announces what changed to the resource's waiters.
 */
module LeasingService {
  import opened Core
  import opened Ordering
  import opened LeaseTables
  import opened LeaseStore
  import opened Broadcast

  /** The operation had the specified effect on the tables, and announced it exactly when it had one. */
  ghost predicate Did(before: (Tables, Board), after: (Tables, Board), spec: Result<Tables>, target: Target,
                      reported: Result<()>)
  {
    && Effect(before.0, after.0, spec, reported)
    && after.1 == if spec.Ok? then before.1.Signalled(target) else before.1
  }

  class Service {
    const store: Store
    const waiters: Waiters
    const defaultTtlNanos: int

    constructor (defaultTtlNanos: int)
      ensures fresh(store) && fresh(waiters)
      ensures store.View() == Tables(map[], map[], map[], [])
      ensures waiters.View() == Board(map[], {}, 0)
      ensures this.defaultTtlNanos == defaultTtlNanos
    {
      store := new Store();
      waiters := new Waiters();
      this.defaultTtlNanos := defaultTtlNanos;
    }

    ghost function Shared(): (Tables, Board)
      reads store, waiters
    {
      (store.View(), waiters.View())
    }

    method Define(actor: string, name: string, capacity: int, ttlNanos: int, now: Instant) returns (r: Result<()>)
      modifies store, waiters
      ensures Did(old(Shared()), Shared(),
                  Defined(old(store.View()), actor, name, capacity, ttlNanos, defaultTtlNanos, now), One(name), r)
    {
      var ttl := if ttlNanos <= 0 then defaultTtlNanos else ttlNanos;
      if !ValidName(name) || capacity < 1 || MAX_CAPACITY < capacity || ttl <= 0 || ttl / 1000 <= 0 {
        return Err(InvalidArgument);
      }
      store.resources := store.resources[name := Resource(capacity, ttl / 1000)];
      var _ := store.Append(actor, ResourceDefined, name, name, now);
      waiters.Signal(name);
      return Ok(());
    }

    /** The part of an acquire that joins the queue. */
    method Join(id: string, agent: string, resource: string, priority: int, requestedAt: Instant)
      returns (r: Result<()>)
      modifies store
      ensures Effect(old(store.View()), store.View(),
                     Enqueued(old(store.View()), id, agent, resource, priority, requestedAt), r)
    {
      if resource !in store.resources {
        return Err(NotFound);
      }
      r := store.InsertEntry(id, QueueEntry(resource, agent, priority, Waiting, requestedAt, None));
      if r.Ok? {
        var _ := store.Append(agent, QueueJoined, resource, id, requestedAt);
      }
    }

    method TryGrant(id: string, leaseId: string, now: Instant) returns (r: Result<bool>)
      modifies store, waiters
      ensures match GrantTried(old(store.View()), id, leaseId, now)
        case Ok(attempt) =>
          && r == Ok(attempt.granted) && store.View() == attempt.tables
          && waiters.View() == (if attempt.granted
                                then old(waiters.View()).Signalled(One(old(store.View()).entries[id].resource))
                                else old(waiters.View()))
        case Err(e) => r == Err(e) && store.View() == old(store.View()) && waiters.View() == old(waiters.View())
    {
      var saved := store.View();
      r := TryGrantIn(id, leaseId, now);
      if r.Err? {
        store.Rollback(saved);
      } else if r.value {
        waiters.Signal(store.entries[id].resource);
      }
    }

    /** The body of the transaction; on an error it may leave partial writes for its caller to undo. */
    method TryGrantIn(id: string, leaseId: string, now: Instant) returns (r: Result<bool>)
      modifies store
      ensures match GrantTried(old(store.View()), id, leaseId, now)
        case Ok(attempt) => r == Ok(attempt.granted) && store.View() == attempt.tables
        case Err(e) => r == Err(e)
    {
      if id !in store.entries {
        return Err(NotFound);
      }
      var entry := store.entries[id];
      if entry.state != Waiting {
        return Err(Conflict);
      }
      if entry.resource !in store.resources {
        return Err(NotFound);
      }
      var resource := store.resources[entry.resource];

      var held := |ActiveOn(store.View(), entry.resource, now)|;
      if held >= resource.capacity {
        return Ok(false);
      }

      var waiting := store.WaitingInOrder(entry.resource);
      HeadIsFirst(store.View(), entry.resource, waiting, id);
      if waiting == [] || waiting[0] != id {
        return Ok(false);
      }

      var lease := Lease(entry.resource, entry.agent, id, now, now + resource.timeToLive, None);
      var created := store.CreateLease(leaseId, lease);
      if created.Err? {
        return Err(created.error);
      }
      var done := store.ResolveEntry(id, Granted, now);
      if done.Ok? {
        done := store.Append(entry.agent, LeaseGranted, entry.resource, leaseId, now);
      }
      match done
      case Ok(_) => r := Ok(true);
      case Err(e) => r := Err(e);
    }

    method Renew(agent: string, leaseId: string, now: Instant) returns (r: Result<()>)
      modifies store
      ensures Effect(old(store.View()), store.View(), Renewed(old(store.View()), agent, leaseId, now), r)
    {
      var saved := store.View();
      r := RenewIn(agent, leaseId, now);
      if r.Err? {
        store.Rollback(saved);
      }
    }

    method RenewIn(agent: string, leaseId: string, now: Instant) returns (r: Result<()>)
      modifies store
      ensures match Renewed(old(store.View()), agent, leaseId, now)
        case Ok(t) => r == Ok(()) && store.View() == t
        case Err(e) => r == Err(e)
    {
      if leaseId !in store.leases {
        return Err(NotFound);
      }
      var lease := store.leases[leaseId];
      if lease.agent != agent {
        return Err(Unauthorised);
      }
      if lease.resource !in store.resources {
        return Err(NotFound);
      }
      r := store.ExtendLease(leaseId, now + store.resources[lease.resource].timeToLive, now);
      if r.Err? {
        return r;
      }
      r := store.Append(agent, LeaseRenewed, lease.resource, leaseId, now);
    }

    /** A holder's release, or with force an operator's. */
    method Release(agent: string, leaseId: string, force: bool, now: Instant) returns (r: Result<()>)
      modifies store, waiters
      ensures leaseId !in old(store.leases) ==>
        r == Err(NotFound) && store.View() == old(store.View()) && waiters.View() == old(waiters.View())
      ensures leaseId in old(store.leases) ==>
        Did(old(Shared()), Shared(),
            Released(old(store.View()), agent, leaseId, force, now), One(old(store.leases)[leaseId].resource), r)
    {
      var saved := store.View();
      if leaseId !in store.leases {
        return Err(NotFound);
      }
      var lease := store.leases[leaseId];
      if !force && lease.agent != agent {
        return Err(Unauthorised);
      }
      store.EndLease(leaseId, now);
      r := store.Append(agent, LeaseReleased, lease.resource, leaseId, now);
      if r.Err? {
        store.Rollback(saved);
      } else {
        waiters.Signal(lease.resource);
      }
    }

    /** A waiter's withdrawal, or with force an operator's. */
    method Cancel(agent: string, id: string, force: bool, now: Instant) returns (r: Result<()>)
      modifies store, waiters
      ensures id !in old(store.entries) ==>
        r == Err(NotFound) && store.View() == old(store.View()) && waiters.View() == old(waiters.View())
      ensures id in old(store.entries) ==>
        Did(old(Shared()), Shared(),
            Withdrawn(old(store.View()), agent, id, force, now), One(old(store.entries)[id].resource), r)
    {
      var saved := store.View();
      if id !in store.entries {
        return Err(NotFound);
      }
      var entry := store.entries[id];
      if !force && entry.agent != agent {
        return Err(Unauthorised);
      }
      if force && entry.state != Waiting {
        return Err(Conflict);
      }
      r := store.ResolveEntry(id, Cancelled, now);
      if r.Ok? {
        r := store.Append(agent, QueueCancelled, entry.resource, id, now);
      }
      if r.Err? {
        store.Rollback(saved);
      } else {
        waiters.Signal(entry.resource);
      }
    }

    /** Takes a request out of the queue after its caller gave up; says nothing if it was already resolved. */
    method Abandon(id: string, outcome: EntryState, now: Instant)
      modifies store, waiters
      ensures id in old(store.entries) ==>
        exists r :: Did(old(Shared()), Shared(),
                        Resolved(old(store.View()), id, outcome, now), One(old(store.entries)[id].resource), r)
      ensures id !in old(store.entries) ==> store.View() == old(store.View()) && waiters.View() == old(waiters.View())
    {
      var r := store.ResolveEntry(id, outcome, now);
      if r.Ok? {
        waiters.Signal(store.entries[id].resource);
      }
      assert id in old(store.entries) ==>
        Did(old(Shared()), Shared(), Resolved(old(store.View()), id, outcome, now), One(old(store.entries)[id].resource), r);
    }

    lemma NoneEnded(t: Tables, actor: string, action: AuditAction, at: Instant)
      ensures AllEnded(t, [], actor, action, at) == Ok(t)
    {
      assert LeasesEnded(t.leases, [], at) == t.leases;
      assert t.audit + LeaseRecords(t, [], actor, action, at) == t.audit;
    }

    lemma EndOneMore(t: Tables, rows: seq<string>, id: string, actor: string, action: AuditAction, at: Instant)
      requires (forall row <- rows :: row in t.leases) && id in t.leases && id !in rows
      requires AllEnded(t, rows, actor, action, at).Ok?
      ensures var so := AllEnded(t, rows, actor, action, at).value;
        && id in so.leases && so.leases[id].resource == t.leases[id].resource
        && AllEnded(t, rows + [id], actor, action, at)
           == if actor == "" then Err(InvalidArgument)
              else Ok(so.(leases := so.leases[id := Ended(so.leases[id], at)],
                          audit := so.audit + [AuditEntry(actor, action, so.leases[id].resource, id, at)]))
    {
      assert id in rows + [id];
      var record := AuditEntry(actor, action, t.leases[id].resource, id, at);
      assert LeaseRecords(t, rows + [id], actor, action, at) == LeaseRecords(t, rows, actor, action, at) + [record];
      assert t.audit + LeaseRecords(t, rows + [id], actor, action, at)
          == t.audit + LeaseRecords(t, rows, actor, action, at) + [record];
      assert LeasesEnded(t.leases, rows, at)[id := Ended(t.leases[id], at)] == LeasesEnded(t.leases, rows + [id], at);
    }

    method EndOne(id: string, actor: string, action: AuditAction, at: Instant) returns (r: Result<()>)
      requires id in store.leases
      modifies store
      ensures actor == "" ==> r == Err(InvalidArgument)
      ensures actor != "" ==> r == Ok(()) && store.View() == old(store.View()).(
        leases := old(store.leases)[id := Ended(old(store.leases)[id], at)],
        audit := old(store.audit) + [AuditEntry(actor, action, old(store.leases)[id].resource, id, at)])
    {
      var resource := store.leases[id].resource;
      store.EndLease(id, at);
      r := store.Append(actor, action, resource, id, at);
    }

    /** Ends the listed leases one by one with a record each, counting them. */
    method EndAll(rows: seq<string>, actor: string, action: AuditAction, at: Instant) returns (r: Result<nat>)
      requires forall id <- rows :: id in store.leases
      requires forall i, j :: 0 <= i < j < |rows| ==> rows[i] != rows[j]
      modifies store
      ensures match AllEnded(old(store.View()), rows, actor, action, at)
        case Ok(t) => r == Ok(|rows|) && store.View() == t
        case Err(e) => r == Err(e)
    {
      ghost var before := store.View();
      var count := 0;
      NoneEnded(before, actor, action, at);
      assert rows[..0] == [];
      while count < |rows|
        invariant 0 <= count <= |rows|
        invariant AllEnded(before, rows[..count], actor, action, at) == Ok(store.View())
      {
        var id := rows[count];
        assert rows[..count + 1] == rows[..count] + [id];
        EndOneMore(before, rows[..count], id, actor, action, at);
        var logged := EndOne(id, actor, action, at);
        if logged.Err? {
          return Err(logged.error);
        }
        count := count + 1;
      }
      assert rows[..count] == rows;
      return Ok(count);
    }

    /** Gives back every slot an agent holds and takes it out of every queue. */
    method ReleaseEverythingHeldBy(actor: string, agent: string, now: Instant)
      returns (r: Result<nat>, ghost leaseRows: seq<string>, ghost entryRows: seq<string>)
      modifies store, waiters
      ensures Rows(leaseRows, ActiveOf(old(store.View()), agent, now))
      ensures Rows(entryRows, WaitingOf(old(store.View()), agent))
      ensures match HeldByReleased(old(store.View()), actor, agent, now, leaseRows, entryRows)
        case Ok(t) =>
          r == Ok(|leaseRows|) && store.View() == t && waiters.View() == old(waiters.View()).Signalled(All)
        case Err(e) => r == Err(e) && store.View() == old(store.View()) && waiters.View() == old(waiters.View())
    {
      var saved := store.View();
      var leases := Fetch(ActiveOf(store.View(), agent, now));
      var waiting := Fetch(WaitingOf(store.View(), agent));
      leaseRows, entryRows := leases, waiting;
      r := EndAll(leases, actor, LeaseReleased, now);
      if r.Err? {
        store.Rollback(saved);
        return;
      }
      ghost var ended := store.View();
      var i := 0;
      while i < |waiting|
        modifies store
        invariant 0 <= i <= |waiting|
        invariant store.View() == ended.(entries := EntriesCancelled(ended.entries, waiting[..i], now))
      {
        assert waiting[..i + 1] == waiting[..i] + [waiting[i]];
        assert waiting[i] in WaitingOf(saved, agent) && waiting[i] !in waiting[..i];
        var resolved := store.ResolveEntry(waiting[i], Cancelled, now);
        i := i + 1;
      }
      assert waiting[..i] == waiting;
      waiters.SignalAll();
    }

    /** Takes back every slot held on a resource. */
    method FreeResource(actor: string, resource: string, now: Instant)
      returns (r: Result<nat>, ghost rows: seq<string>)
      modifies store, waiters
      ensures Rows(rows, ActiveOn(old(store.View()), resource, now))
      ensures match ResourceFreed(old(store.View()), actor, resource, now, rows)
        case Ok(t) =>
          r == Ok(|rows|) && store.View() == t && waiters.View() == old(waiters.View()).Signalled(One(resource))
        case Err(e) => r == Err(e) && store.View() == old(store.View()) && waiters.View() == old(waiters.View())
    {
      var saved := store.View();
      var leases := Fetch(ActiveOn(store.View(), resource, now));
      rows := leases;
      if resource !in store.resources {
        return Err(NotFound), rows;
      }
      r := EndAll(leases, actor, LeaseReleased, now);
      if r.Err? {
        store.Rollback(saved);
      } else {
        waiters.Signal(resource);
      }
    }

    method CancelOne(id: string, actor: string, at: Instant) returns (r: Result<()>)
      requires id in store.entries && store.entries[id].state == Waiting
      modifies store
      ensures actor == "" ==> r == Err(InvalidArgument)
      ensures actor != "" ==> r == Ok(()) && store.View() == old(store.View()).(
        entries := old(store.entries)[id := old(store.entries)[id].(state := Cancelled, resolvedAt := Some(at))],
        audit := old(store.audit) + [AuditEntry(actor, QueueCancelled, old(store.entries)[id].resource, id, at)])
    {
      r := store.ResolveEntry(id, Cancelled, at);
      if r.Ok? {
        r := store.Append(actor, QueueCancelled, store.entries[id].resource, id, at);
      }
    }

    lemma NoneCancelled(t: Tables, actor: string, resource: string, at: Instant)
      ensures AllCancelled(t, [], actor, resource, at) == Ok(t)
    {
      assert EntriesCancelled(t.entries, [], at) == t.entries;
      assert t.audit + EntryRecords([], actor, resource, at) == t.audit;
    }

    lemma CancelOneMore(t: Tables, rows: seq<string>, id: string, actor: string, resource: string, at: Instant)
      requires id in t.entries && id !in rows
      requires AllCancelled(t, rows, actor, resource, at).Ok?
      ensures var so := AllCancelled(t, rows, actor, resource, at).value;
        && id in so.entries && so.entries[id] == t.entries[id]
        && AllCancelled(t, rows + [id], actor, resource, at)
           == if actor == "" then Err(InvalidArgument)
              else Ok(so.(entries := so.entries[id := t.entries[id].(state := Cancelled, resolvedAt := Some(at))],
                          audit := so.audit + [AuditEntry(actor, QueueCancelled, resource, id, at)]))
    {
      assert id in rows + [id];
      var record := AuditEntry(actor, QueueCancelled, resource, id, at);
      assert t.audit + EntryRecords(rows + [id], actor, resource, at) == t.audit + EntryRecords(rows, actor, resource, at) + [record];
      assert EntriesCancelled(t.entries, rows, at)[id := t.entries[id].(state := Cancelled, resolvedAt := Some(at))]
          == EntriesCancelled(t.entries, rows + [id], at);
    }

    /** Cancels the listed entries of one queue one by one with a record each, counting them. */
    method CancelAll(rows: seq<string>, actor: string, resource: string, at: Instant) returns (r: Result<nat>)
      requires forall id <- rows :: IsWaitingOn(store.View(), resource, id)
      requires forall i, j :: 0 <= i < j < |rows| ==> rows[i] != rows[j]
      modifies store
      ensures match AllCancelled(old(store.View()), rows, actor, resource, at)
        case Ok(t) => r == Ok(|rows|) && store.View() == t
        case Err(e) => r == Err(e)
    {
      ghost var before := store.View();
      var count := 0;
      NoneCancelled(before, actor, resource, at);
      assert rows[..0] == [];
      while count < |rows|
        invariant 0 <= count <= |rows|
        invariant AllCancelled(before, rows[..count], actor, resource, at) == Ok(store.View())
      {
        var id := rows[count];
        assert rows[..count + 1] == rows[..count] + [id];
        assert id in rows && IsWaitingOn(before, resource, id);
        CancelOneMore(before, rows[..count], id, actor, resource, at);
        var logged := CancelOne(id, actor, at);
        if logged.Err? {
          return Err(logged.error);
        }
        count := count + 1;
      }
      assert rows[..count] == rows;
      return Ok(count);
    }

    /** Takes every waiting agent out of a resource's queue, in service order. */
    method ClearQueue(actor: string, resource: string, now: Instant)
      returns (r: Result<nat>, ghost rows: seq<string>)
      modifies store, waiters
      ensures InLine(old(store.View()), resource, rows)
      ensures match QueueCleared(old(store.View()), actor, resource, now, rows)
        case Ok(t) =>
          r == Ok(|rows|) && store.View() == t && waiters.View() == old(waiters.View()).Signalled(One(resource))
        case Err(e) => r == Err(e) && store.View() == old(store.View()) && waiters.View() == old(waiters.View())
    {
      var saved := store.View();
      var waiting := store.WaitingInOrder(resource);
      rows := waiting;
      if resource !in store.resources {
        return Err(NotFound), rows;
      }
      assert forall id <- waiting :: id in WaitingOn(saved, resource);
      r := CancelAll(waiting, actor, resource, now);
      if r.Err? {
        store.Rollback(saved);
      } else {
        waiters.Signal(resource);
      }
    }

    /** Reclaims slots whose holders went away, and wakes everyone if there were any. */
    method ReapExpired(now: Instant) returns (r: Result<nat>, ghost rows: seq<string>)
      modifies store, waiters
      ensures Rows(rows, RanOut(old(store.View()), now))
      ensures Reaped(old(store.View()), now, rows) == Ok(store.View()) && r == Ok(|rows|)
      ensures waiters.View() == if rows != [] then old(waiters.View()).Signalled(All) else old(waiters.View())
    {
      var expired := Fetch(RanOut(store.View(), now));
      rows := expired;
      r := EndAll(expired, SYSTEM_ACTOR, LeaseExpired, now);
      if r.Ok? && r.value > 0 {
        waiters.SignalAll();
      }
    }
  }
}
