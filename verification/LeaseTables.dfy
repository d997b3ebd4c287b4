/**
 The leasing rules as functions from one committed state of the tables to the next. A function
 that returns `Err` stands for a transaction that rolled back: nothing it wrote survives.
 */
module LeaseTables {
  import opened Core
  import opened Ordering

  datatype Tables = Tables(
    resources: map<string, Resource>,
    entries: map<string, QueueEntry>,
    leases: map<string, Lease>,
    audit: seq<AuditEntry>)

  // ----- queries -----

  /** The service order of the queue: highest priority, then earliest request, then identifier. */
  function EntryKey(id: string, entry: QueueEntry): Key {
    Key(-entry.priority, entry.requestedAt, id)
  }

  predicate IsWaitingOn(t: Tables, resource: string, id: string) {
    id in t.entries && t.entries[id].resource == resource && t.entries[id].state == Waiting
  }

  function WaitingOn(t: Tables, resource: string): set<string> {
    set id | id in t.entries && IsWaitingOn(t, resource, id)
  }

  function WaitingOf(t: Tables, agent: string): set<string> {
    set id | id in t.entries && t.entries[id].agent == agent && t.entries[id].state == Waiting
  }

  /** The entry at the head of a resource's queue. */
  predicate IsHead(t: Tables, resource: string, id: string) {
    && IsWaitingOn(t, resource, id)
    && forall other <- t.entries :: IsWaitingOn(t, resource, other) && other != id ==>
         KeyLess(EntryKey(id, t.entries[id]), EntryKey(other, t.entries[other]))
  }

  function ActiveOn(t: Tables, resource: string, at: Instant): set<string> {
    set id | id in t.leases && t.leases[id].resource == resource && t.leases[id].Active(at)
  }

  function ActiveOf(t: Tables, agent: string, at: Instant): set<string> {
    set id | id in t.leases && t.leases[id].agent == agent && t.leases[id].Active(at)
  }

  function RanOut(t: Tables, at: Instant): set<string> {
    set id | id in t.leases && t.leases[id].RanOut(at)
  }

  /** The rows of a query in whatever order the database returned them, each once. */
  ghost predicate Rows(rows: seq<string>, s: set<string>) {
    && (forall i, j :: 0 <= i < j < |rows| ==> rows[i] != rows[j])
    && (forall id :: id in rows <==> id in s)
  }

  function EntryKeys(t: Tables, rows: seq<string>): seq<Key>
    requires forall id <- rows :: id in t.entries
  {
    seq(|rows|, i requires 0 <= i < |rows| => EntryKey(rows[i], t.entries[rows[i]]))
  }

  /** The whole queue of a resource: every waiting entry once, in service order. */
  ghost predicate InLine(t: Tables, resource: string, rows: seq<string>) {
    Rows(rows, WaitingOn(t, resource)) && Ascending(EntryKeys(t, rows))
  }

  lemma LineLists(t: Tables, resource: string, rows: seq<string>)
    requires InLine(t, resource, rows)
    ensures Listing(EntryKeys(t, rows), set id | id in WaitingOn(t, resource) :: EntryKey(id, t.entries[id]))
  {
    var keys := EntryKeys(t, rows);
    forall k ensures k in keys <==> k in set id | id in WaitingOn(t, resource) :: EntryKey(id, t.entries[id]) {
      if k in keys {
        var i :| 0 <= i < |keys| && keys[i] == k;
        assert rows[i] in rows;
      }
      if id :| id in WaitingOn(t, resource) && EntryKey(id, t.entries[id]) == k {
        var i :| 0 <= i < |rows| && rows[i] == id;
        assert keys[i] == k;
      }
    }
  }

  /** In so many words: higher priority first, then whoever asked earlier, then the lesser identifier. */
  lemma LineIsInServiceOrder(t: Tables, resource: string, rows: seq<string>, i: nat, j: nat)
    requires InLine(t, resource, rows) && i < j < |rows|
    ensures rows[i] in t.entries && rows[j] in t.entries
    ensures var a, b := t.entries[rows[i]], t.entries[rows[j]];
      || a.priority > b.priority
      || (a.priority == b.priority && a.requestedAt < b.requestedAt)
      || (a.priority == b.priority && a.requestedAt == b.requestedAt && LexLess(rows[i], rows[j]))
  {
    assert rows[i] in rows && rows[j] in rows;
    assert KeyLess(EntryKeys(t, rows)[i], EntryKeys(t, rows)[j]);
  }

  /** The order leaves no choice: a resource has one queue. */
  lemma LineIsUnique(t: Tables, resource: string, a: seq<string>, b: seq<string>)
    requires InLine(t, resource, a) && InLine(t, resource, b)
    ensures a == b
  {
    LineLists(t, resource, a);
    LineLists(t, resource, b);
    ListingIsUnique(EntryKeys(t, a), EntryKeys(t, b),
                    set id | id in WaitingOn(t, resource) :: EntryKey(id, t.entries[id]));
    assert |a| == |EntryKeys(t, a)| == |EntryKeys(t, b)| == |b|;
    forall i | 0 <= i < |a| ensures a[i] == b[i] {
      assert EntryKeys(t, a)[i].id == a[i] && EntryKeys(t, b)[i].id == b[i];
    }
  }

  /** Exactly the first in line is at the head. */
  lemma HeadIsFirst(t: Tables, resource: string, rows: seq<string>, id: string)
    requires InLine(t, resource, rows)
    ensures IsHead(t, resource, id) <==> rows != [] && rows[0] == id
  {
    if rows != [] {
      assert rows[0] in rows && IsWaitingOn(t, resource, rows[0]);
      forall other <- t.entries | IsWaitingOn(t, resource, other) && other != rows[0]
        ensures KeyLess(EntryKey(rows[0], t.entries[rows[0]]), EntryKey(other, t.entries[other]))
      {
        assert other in WaitingOn(t, resource);
        var i :| 0 <= i < |rows| && rows[i] == other;
        assert KeyLess(EntryKeys(t, rows)[0], EntryKeys(t, rows)[i]);
      }
      if IsHead(t, resource, id) && id != rows[0] {
        KeyTrichotomy(EntryKey(rows[0], t.entries[rows[0]]), EntryKey(id, t.entries[id]));
      }
    }
    if IsHead(t, resource, id) {
      assert id in WaitingOn(t, resource);
    }
  }

  /** A queue that is not empty has a head, and only one. */
  lemma HeadExists(t: Tables, resource: string) returns (id: string)
    requires WaitingOn(t, resource) != {}
    ensures forall other :: IsHead(t, resource, other) <==> other == id
  {
    var keys := set e | e in WaitingOn(t, resource) :: EntryKey(e, t.entries[e]);
    var some :| some in WaitingOn(t, resource);
    assert EntryKey(some, t.entries[some]) in keys;
    LeastExists(keys);
    var least :| IsLeast(least, keys);
    id := least.id;
    assert IsWaitingOn(t, resource, id) && least == EntryKey(id, t.entries[id]);
    forall other <- t.entries | IsWaitingOn(t, resource, other) && other != id
      ensures KeyLess(EntryKey(id, t.entries[id]), EntryKey(other, t.entries[other]))
    {
      assert other in WaitingOn(t, resource) && EntryKey(other, t.entries[other]) in keys;
    }
    forall other | IsHead(t, resource, other) ensures other == id {
      KeyTrichotomy(EntryKey(id, t.entries[id]), EntryKey(other, t.entries[other]));
    }
  }

  // ----- single statements -----

  /** Appending an audit record fails without an actor. */
  function Audited(t: Tables, actor: string, action: AuditAction, target: string, about: string, at: Instant)
    : Result<Tables>
  {
    if actor == "" then Err(InvalidArgument)
    else Ok(t.(audit := t.audit + [AuditEntry(actor, action, target, about, at)]))
  }

  /** Only a waiting entry moves: of two resolutions at once the later one is a conflict. */
  function Resolved(t: Tables, id: string, state: EntryState, at: Instant): Result<Tables> {
    if !state.Terminal() then Err(InvalidArgument)
    else if id !in t.entries || t.entries[id].state != Waiting then Err(Conflict)
    else Ok(t.(entries := t.entries[id := t.entries[id].(state := state, resolvedAt := Some(at))]))
  }

  function LeaseCreated(t: Tables, id: string, lease: Lease): Result<Tables> {
    if id == "" || lease.agent == "" then Err(InvalidArgument)
    else if lease.expiresAt <= lease.acquiredAt then Err(InvalidArgument)
    else if id in t.leases then Err(AlreadyExists)
    else Ok(t.(leases := t.leases[id := lease]))
  }

  /** A lease that was released or has already expired is not revived. */
  function LeaseExtended(t: Tables, id: string, expiresAt: Instant, at: Instant): Result<Tables> {
    if id !in t.leases then Err(NotFound)
    else if !t.leases[id].Active(at) then Err(Conflict)
    else Ok(t.(leases := t.leases[id := t.leases[id].(expiresAt := expiresAt)]))
  }

  /** Ends a lease; one already released keeps its first release time. */
  function Ended(lease: Lease, at: Instant): Lease {
    if lease.releasedAt.None? then lease.(releasedAt := Some(at)) else lease
  }

  function LeaseEnded(t: Tables, id: string, at: Instant): Tables {
    if id in t.leases then t.(leases := t.leases[id := Ended(t.leases[id], at)]) else t
  }

  // ----- transactions -----

  /** A non-positive time to live means the default; the store keeps whole microseconds. */
  function Defined(t: Tables, actor: string, name: string, capacity: int, ttlNanos: int, defaultTtlNanos: int,
                   at: Instant): Result<Tables>
  {
    var ttl := if ttlNanos <= 0 then defaultTtlNanos else ttlNanos;
    if !ValidName(name) || capacity < 1 || MAX_CAPACITY < capacity || ttl <= 0 then Err(InvalidArgument)
    else if ttl / 1000 <= 0 then Err(InvalidArgument)
    else
      var written := t.(resources := t.resources[name := Resource(capacity, ttl / 1000)]);
      match Audited(written, actor, ResourceDefined, name, name, at)
      case Ok(logged) => Ok(logged)
      case Err(_) => Ok(written) // this record is written outside the transaction, and only logged on failure
  }

  function Enqueued(t: Tables, id: string, agent: string, resource: string, priority: int, requestedAt: Instant)
    : Result<Tables>
  {
    if resource !in t.resources then Err(NotFound)
    else if id == "" || agent == "" || !ValidName(resource) then Err(InvalidArgument)
    else if id in t.entries then Err(AlreadyExists)
    else
      var entry := QueueEntry(resource, agent, priority, Waiting, requestedAt, None);
      Ok(t.(entries := t.entries[id := entry],
            audit := t.audit + [AuditEntry(agent, QueueJoined, resource, id, requestedAt)]))
  }

  datatype Attempt = Attempt(tables: Tables, granted: bool)

  /** Takes a slot if there is room and this entry is next in line; otherwise changes nothing. */
  function GrantTried(t: Tables, id: string, leaseId: string, now: Instant): Result<Attempt> {
    if id !in t.entries then Err(NotFound)
    else if t.entries[id].state != Waiting then Err(Conflict)
    else if t.entries[id].resource !in t.resources then Err(NotFound)
    else
      var entry := t.entries[id];
      var resource := t.resources[entry.resource];
      if |ActiveOn(t, entry.resource, now)| >= resource.capacity then Ok(Attempt(t, false))
      else if !IsHead(t, entry.resource, id) then Ok(Attempt(t, false))
      else
        var lease := Lease(entry.resource, entry.agent, id, now, now + resource.timeToLive, None);
        match LeaseCreated(t, leaseId, lease)
        case Err(e) => Err(e)
        case Ok(t1) =>
          match Resolved(t1, id, Granted, now)
          case Err(e) => Err(e)
          case Ok(t2) =>
            match Audited(t2, entry.agent, LeaseGranted, entry.resource, leaseId, now)
            case Err(e) => Err(e)
            case Ok(t3) => Ok(Attempt(t3, true))
  }

  function Renewed(t: Tables, agent: string, leaseId: string, now: Instant): Result<Tables> {
    if leaseId !in t.leases then Err(NotFound)
    else if t.leases[leaseId].agent != agent then Err(Unauthorised)
    else if t.leases[leaseId].resource !in t.resources then Err(NotFound)
    else
      var resource := t.leases[leaseId].resource;
      match LeaseExtended(t, leaseId, now + t.resources[resource].timeToLive, now)
      case Err(e) => Err(e)
      case Ok(t1) => Audited(t1, agent, LeaseRenewed, resource, leaseId, now)
  }

  function Released(t: Tables, agent: string, leaseId: string, force: bool, now: Instant): Result<Tables> {
    if leaseId !in t.leases then Err(NotFound)
    else if !force && t.leases[leaseId].agent != agent then Err(Unauthorised)
    else Audited(LeaseEnded(t, leaseId, now), agent, LeaseReleased, t.leases[leaseId].resource, leaseId, now)
  }

  function Withdrawn(t: Tables, agent: string, id: string, force: bool, now: Instant): Result<Tables> {
    if id !in t.entries then Err(NotFound)
    else if !force && t.entries[id].agent != agent then Err(Unauthorised)
    else if force && t.entries[id].state != Waiting then Err(Conflict)
    else
      match Resolved(t, id, Cancelled, now)
      case Err(e) => Err(e)
      case Ok(t1) => Audited(t1, agent, QueueCancelled, t.entries[id].resource, id, now)
  }

  // ----- bulk transactions -----

  /** Every listed lease ended, every other row untouched. */
  function LeasesEnded(leases: map<string, Lease>, rows: seq<string>, at: Instant): map<string, Lease> {
    map id | id in leases :: if id in rows then Ended(leases[id], at) else leases[id]
  }

  function EntriesCancelled(entries: map<string, QueueEntry>, rows: seq<string>, at: Instant): map<string, QueueEntry> {
    map id | id in entries ::
      if id in rows then entries[id].(state := Cancelled, resolvedAt := Some(at)) else entries[id]
  }

  /** One record per listed lease, in the order the rows were handled. */
  function LeaseRecords(t: Tables, rows: seq<string>, actor: string, action: AuditAction, at: Instant): seq<AuditEntry>
    requires forall id <- rows :: id in t.leases
  {
    seq(|rows|, i requires 0 <= i < |rows| =>
      AuditEntry(actor, action, t.leases[rows[i]].resource, rows[i], at))
  }

  function EntryRecords(rows: seq<string>, actor: string, resource: string, at: Instant): seq<AuditEntry> {
    seq(|rows|, i requires 0 <= i < |rows| => AuditEntry(actor, QueueCancelled, resource, rows[i], at))
  }

  /** Ends every listed lease with a record each; a missing actor rolls the whole transaction back. */
  function AllEnded(t: Tables, rows: seq<string>, actor: string, action: AuditAction, at: Instant): Result<Tables>
    requires forall id <- rows :: id in t.leases
  {
    if rows != [] && actor == "" then Err(InvalidArgument)
    else Ok(t.(leases := LeasesEnded(t.leases, rows, at),
               audit := t.audit + LeaseRecords(t, rows, actor, action, at)))
  }

  /** Cancels every listed entry with a record each, with the same rule about the actor. */
  function AllCancelled(t: Tables, rows: seq<string>, actor: string, resource: string, at: Instant): Result<Tables> {
    if rows != [] && actor == "" then Err(InvalidArgument)
    else Ok(t.(entries := EntriesCancelled(t.entries, rows, at),
               audit := t.audit + EntryRecords(rows, actor, resource, at)))
  }

  /** Ends an agent's leases, then cancels its waiting entries without a record. */
  function HeldByReleased(t: Tables, actor: string, agent: string, now: Instant,
                          leaseRows: seq<string>, entryRows: seq<string>): Result<Tables>
    requires Rows(leaseRows, ActiveOf(t, agent, now))
    requires Rows(entryRows, WaitingOf(t, agent))
  {
    match AllEnded(t, leaseRows, actor, LeaseReleased, now)
    case Err(e) => Err(e)
    case Ok(t1) => Ok(t1.(entries := EntriesCancelled(t1.entries, entryRows, now)))
  }

  function ResourceFreed(t: Tables, actor: string, resource: string, now: Instant, rows: seq<string>): Result<Tables>
    requires Rows(rows, ActiveOn(t, resource, now))
  {
    if resource !in t.resources then Err(NotFound)
    else AllEnded(t, rows, actor, LeaseReleased, now)
  }

  function QueueCleared(t: Tables, actor: string, resource: string, now: Instant, rows: seq<string>): Result<Tables>
    requires Rows(rows, WaitingOn(t, resource))
  {
    if resource !in t.resources then Err(NotFound)
    else AllCancelled(t, rows, actor, resource, now)
  }

  function Reaped(t: Tables, now: Instant, rows: seq<string>): Result<Tables>
    requires Rows(rows, RanOut(t, now))
  {
    AllEnded(t, rows, SYSTEM_ACTOR, LeaseExpired, now)
  }
}
