/**
 What each leasing operation demands, and what it leaves in the tables: how long a lease lasts, who may
 end one, and what the audit log says about it.
 */
module LeaseTerms {
  import opened Core
  import opened Ordering
  import opened LeaseTables
  import opened LeasingRuns
  import opened LeasingInvariants

  ghost predicate Reachable(now: Instant, ops: seq<Op>) {
    Legal(State(now, EMPTY), ops)
  }

  ghost function Reached(now: Instant, ops: seq<Op>): State
    requires Reachable(now, ops)
  {
    Exec(State(now, EMPTY), ops)
  }

  ghost predicate Succeeds(s: State, op: Op)
    requires Enabled(s, op)
  {
    Transaction(s, op).Ok?
  }

  /** The one record an operation adds to the log. */
  predicate Logs(t: Tables, t': Tables, actor: string, action: AuditAction, target: string, about: string, at: Instant) {
    t'.audit == t.audit + [AuditEntry(actor, action, target, about, at)]
  }

  /** Nothing but this lease is different. */
  ghost predicate OnlyLease(t: Tables, t': Tables, id: string) {
    && t'.resources == t.resources && t'.entries == t.entries
    && t'.leases.Keys == t.leases.Keys + {id}
    && (forall other <- t.leases :: other != id ==> t'.leases[other] == t.leases[other])
  }

  // ----- how long a lease lasts -----

  ghost function Term(s: State, resource: string): int {
    if resource in s.tables.resources then s.tables.resources[resource].timeToLive else 0
  }

  /**
   A renewal succeeds exactly for the holder of a lease that is active now. From then on the lease is
   active for one time to live of its resource, counted from the renewal, and nothing else is different.
   */
  lemma RenewalLasts(now: Instant, ops: seq<Op>, agent: string, id: string)
    requires Reachable(now, ops)
    ensures var s := Reached(now, ops);
      Succeeds(s, Renew(agent, id))
      <==> id in s.tables.leases && s.tables.leases[id].agent == agent && s.tables.leases[id].Active(s.now)
    ensures var s, t' := Reached(now, ops), Step(Reached(now, ops), Renew(agent, id)).tables;
      Succeeds(s, Renew(agent, id)) ==>
        && OnlyLease(s.tables, t', id)
        && Logs(s.tables, t', agent, LeaseRenewed, s.tables.leases[id].resource, id, s.now)
        && t'.leases[id].resource == s.tables.leases[id].resource
        && forall at :: at >= s.now ==>
             (t'.leases[id].Active(at) <==> at < s.now + Term(s, t'.leases[id].resource))
  {
    ReachableIsConsistent(now, ops);
  }

  /** A lease that is granted is active from now on for one time to live, and its holder is the one who waited. */
  lemma GrantLasts(now: Instant, ops: seq<Op>, entry: string, id: string)
    requires Reachable(now, ops) && Grants(Reached(now, ops), TryGrant(entry, id))
    ensures var s, t' := Reached(now, ops), Step(Reached(now, ops), TryGrant(entry, id)).tables;
      && id !in s.tables.leases && id in t'.leases && entry in s.tables.entries
      && var lease, waited := t'.leases[id], s.tables.entries[entry];
         && (lease.resource, lease.agent, lease.entry) == (waited.resource, waited.agent, entry)
         && lease.acquiredAt == s.now && 0 < Term(s, lease.resource)
         && Logs(s.tables, t', lease.agent, LeaseGranted, lease.resource, id, s.now)
         && forall at :: at >= s.now ==> (lease.Active(at) <==> at < s.now + Term(s, lease.resource))
    ensures var t, t' := Reached(now, ops).tables, Step(Reached(now, ops), TryGrant(entry, id)).tables;
      && t'.resources == t.resources && t'.leases.Keys == t.leases.Keys + {id} && t'.entries.Keys == t.entries.Keys
      && (forall other <- t.leases :: t'.leases[other] == t.leases[other])
      && t'.entries[entry] == t.entries[entry].(state := Granted, resolvedAt := Some(Reached(now, ops).now))
      && (forall other <- t.entries :: other != entry ==> t'.entries[other] == t.entries[other])
  {
    ReachableIsConsistent(now, ops);
  }

  /** An attempt is answered exactly while the entry waits, unless it would be granted under an identifier already taken. */
  lemma AttemptIsAnswered(now: Instant, ops: seq<Op>, entry: string, id: string)
    requires Reachable(now, ops)
    ensures var s := Reached(now, ops);
      Succeeds(s, TryGrant(entry, id)) <==>
        && Waits(s, entry)
        && (var resource := s.tables.entries[entry].resource;
            IsHead(s.tables, resource, entry) && Holding(s, resource) < Capacity(s, resource) ==>
              id != "" && id !in s.tables.leases)
    ensures var s := Reached(now, ops);
      !Grants(s, TryGrant(entry, id)) ==> Step(s, TryGrant(entry, id)) == s
  {
    ReachableIsConsistent(now, ops);
  }

  /** Giving up resolves exactly an entry that still waits, and records nothing. */
  lemma AbandonResolves(s: State, id: string, outcome: EntryState, at: Instant)
    requires Enabled(s, Abandon(id, outcome, at))
    ensures Succeeds(s, Abandon(id, outcome, at)) <==> Waits(s, id)
    ensures Waits(s, id) ==>
      Step(s, Abandon(id, outcome, at)).tables
      == s.tables.(entries := s.tables.entries[id := s.tables.entries[id].(state := outcome, resolvedAt := Some(at))])
  {
  }

  // ----- keeping a lease -----

  /** The holder of an active lease renews it. */
  predicate RenewsAt(s: State, op: Op, id: string) {
    && op.Renew? && op.leaseId == id && id in s.tables.leases
    && s.tables.leases[id].agent == op.agent && s.tables.leases[id].Active(s.now)
  }

  /** A release, or a remedy that is about this lease's holder or resource. */
  ghost predicate GivesBack(s: State, op: Op, id: string)
    requires Enabled(s, op) && id in s.tables.leases
  {
    Succeeds(s, op) &&
    match op
    case Release(_, leaseId, _) => leaseId == id
    case ReleaseHeldBy(_, agent, _, _, _) => agent == s.tables.leases[id].agent
    case FreeResource(_, resource, _, _) => resource == s.tables.leases[id].resource
    case _ => false
  }

  /** One time to live after the last renewal; without any, when the lease was to end at the start. */
  ghost function Deadline(s: State, ops: seq<Op>, id: string): Instant
    requires Legal(s, ops) && id in s.tables.leases
  {
    if ops == [] then s.tables.leases[id].expiresAt
    else
      var u := Exec(s, ops[..|ops| - 1]);
      if RenewsAt(u, ops[|ops| - 1], id) then u.now + Term(u, s.tables.leases[id].resource)
      else Deadline(s, ops[..|ops| - 1], id)
  }

  /** At no point of the run has the deadline passed, and nobody has given the lease back. */
  ghost predicate KeptUp(s: State, ops: seq<Op>, id: string)
    requires Legal(s, ops) && id in s.tables.leases
  {
    && Exec(s, ops).now < Deadline(s, ops, id)
    && (ops != [] ==>
          var before, last := ops[..|ops| - 1], ops[|ops| - 1];
          KeptUp(s, before, id) && id in Exec(s, before).tables.leases && !GivesBack(Exec(s, before), last, id))
  }

  /** An active lease a step did not renew or give back is exactly as it was. */
  ghost predicate LeaseStands(s: State, op: Op, id: string)
    requires Enabled(s, op) && id in s.tables.leases
  {
    id in Step(s, op).tables.leases && Step(s, op).tables.leases[id] == s.tables.leases[id]
  }

  lemma RemedyLeavesOthers(s: State, op: Op, id: string)
    requires Enabled(s, op) && id in s.tables.leases && s.tables.leases[id].Active(s.now) && !GivesBack(s, op, id)
    requires op.ReleaseHeldBy? || op.FreeResource? || op.Release?
    ensures LeaseStands(s, op, id)
  {
  }

  /** A reaper whose reading of the clock lags still finds an active lease active. */
  lemma ReaperLeavesActive(s: State, op: Op, id: string)
    requires Enabled(s, op) && id in s.tables.leases && s.tables.leases[id].Active(s.now) && op.ReapExpired?
    ensures LeaseStands(s, op, id)
  {
    assert id !in op.rows;
  }

  lemma OtherStepsLeaveLease(s: State, op: Op, id: string)
    requires Enabled(s, op) && id in s.tables.leases
    requires !op.ReleaseHeldBy? && !op.FreeResource? && !op.Release? && !op.ReapExpired? && !op.Renew?
    ensures LeaseStands(s, op, id)
  {
  }

  lemma RenewalSetsTerm(s: State, op: Op, id: string)
    requires Enabled(s, op) && Consistent(s.tables) && id in s.tables.leases && op.Renew?
    ensures if RenewsAt(s, op, id) then
        && id in Step(s, op).tables.leases
        && Step(s, op).tables.leases[id]
           == s.tables.leases[id].(expiresAt := s.now + Term(s, s.tables.leases[id].resource))
      else LeaseStands(s, op, id)
  {
  }

  lemma StepKeepsTerm(s: State, op: Op, id: string)
    requires Enabled(s, op) && Consistent(s.tables) && id in s.tables.leases
    requires s.tables.leases[id].Active(s.now) && !GivesBack(s, op, id)
    ensures id in Step(s, op).tables.leases
    ensures Step(s, op).tables.leases[id]
      == if RenewsAt(s, op, id) then s.tables.leases[id].(expiresAt := s.now + Term(s, s.tables.leases[id].resource))
         else s.tables.leases[id]
  {
    if op.ReleaseHeldBy? || op.FreeResource? || op.Release? {
      RemedyLeavesOthers(s, op, id);
    } else if op.ReapExpired? {
      ReaperLeavesActive(s, op, id);
    } else if op.Renew? {
      RenewalSetsTerm(s, op, id);
    } else {
      OtherStepsLeaveLease(s, op, id);
    }
  }

  /**
   Over every run a lease stays active while its holder's renewals come less than one time to live apart
   and nobody gives it back: reapers with an old reading of the clock and redefinitions included.
   */
  lemma {:induction false} KeptUpStaysActive(s: State, ops: seq<Op>, id: string)
    requires Legal(s, ops) && Consistent(s.tables) && id in s.tables.leases && s.tables.leases[id].releasedAt.None?
    requires KeptUp(s, ops, id)
    ensures Consistent(Exec(s, ops).tables) && id in Exec(s, ops).tables.leases
    ensures var lease := Exec(s, ops).tables.leases[id];
      && lease.resource == s.tables.leases[id].resource
      && lease.expiresAt == Deadline(s, ops, id) && lease.Active(Exec(s, ops).now)
  {
    if ops != [] {
      var before, last := ops[..|ops| - 1], ops[|ops| - 1];
      KeptUpStaysActive(s, before, id);
      StepKeepsTerm(Exec(s, before), last, id);
      StepPreserves(Exec(s, before), last);
    }
  }

  // ----- who may end what -----

  /** A release succeeds exactly for the holder, or with force for any named actor; then the lease is over for good. */
  lemma ReleaseEnds(now: Instant, ops: seq<Op>, agent: string, id: string, force: bool)
    requires Reachable(now, ops)
    ensures var s, op := Reached(now, ops), Release(agent, id, force);
      Succeeds(s, op) <==> id in s.tables.leases && (s.tables.leases[id].agent == agent || (force && agent != ""))
    ensures var s, op := Reached(now, ops), Release(agent, id, force);
      Succeeds(s, op) ==>
        var lease, lease' := s.tables.leases[id], Step(s, op).tables.leases[id];
        && OnlyLease(s.tables, Step(s, op).tables, id)
        && Logs(s.tables, Step(s, op).tables, agent, LeaseReleased, lease.resource, id, s.now)
        && lease' == lease.(releasedAt := if lease.releasedAt.None? then Some(s.now) else lease.releasedAt)
        && forall at :: !lease'.Active(at)
  {
    ReachableIsConsistent(now, ops);
  }

  /** A withdrawal succeeds exactly for whoever waits, or with force for any named actor, while the entry waits. */
  lemma CancelWithdraws(now: Instant, ops: seq<Op>, agent: string, id: string, force: bool)
    requires Reachable(now, ops)
    ensures var s, op := Reached(now, ops), Cancel(agent, id, force);
      Succeeds(s, op) <==> Waits(s, id) && (s.tables.entries[id].agent == agent || (force && agent != ""))
    ensures var s, op := Reached(now, ops), Cancel(agent, id, force);
      Succeeds(s, op) ==>
        var t, t' := s.tables, Step(s, op).tables;
        && t'.leases == t.leases && t'.resources == t.resources && t'.entries.Keys == t.entries.Keys
        && Logs(t, t', agent, QueueCancelled, t.entries[id].resource, id, s.now)
        && t'.entries[id] == t.entries[id].(state := Cancelled, resolvedAt := Some(s.now))
        && forall other <- t.entries :: other != id ==> t'.entries[other] == t.entries[other]
  {
    ReachableIsConsistent(now, ops);
  }

  /** Joining succeeds exactly on a resource that exists, under a new identifier and a name; only the entry is new. */
  lemma JoinWaits(now: Instant, ops: seq<Op>, id: string, agent: string, resource: string, priority: int, at: Instant)
    requires Reachable(now, ops) && at <= Reached(now, ops).now
    ensures var s, op := Reached(now, ops), Enqueue(id, agent, resource, priority, at);
      Succeeds(s, op) <==> resource in s.tables.resources && id != "" && id !in s.tables.entries && agent != ""
    ensures var s, op := Reached(now, ops), Enqueue(id, agent, resource, priority, at);
      Succeeds(s, op) ==>
        var t, t' := s.tables, Step(s, op).tables;
        && t'.leases == t.leases && t'.resources == t.resources && t'.entries.Keys == t.entries.Keys + {id}
        && Logs(t, t', agent, QueueJoined, resource, id, at)
        && t'.entries[id] == QueueEntry(resource, agent, priority, Waiting, at, None)
        && forall other <- t.entries :: t'.entries[other] == t.entries[other]
  {
    ReachableIsConsistent(now, ops);
  }

  /** The time to live a definition gives, in nanoseconds. */
  function Lifetime(ttlNanos: int, defaultTtlNanos: int): int {
    if ttlNanos <= 0 then defaultTtlNanos else ttlNanos
  }

  /**
   A definition succeeds exactly with a valid name, a capacity from 1 to 1024 and a time to live of at
   least a microsecond. It rounds that down to microseconds and disturbs no lease, entry or other resource.
   */
  lemma DefineReconfigures(s: State, actor: string, name: string, capacity: int, ttl: int, default: int)
    ensures var op := Define(actor, name, capacity, ttl, default);
      Succeeds(s, op) <==> ValidName(name) && 1 <= capacity <= 1024 && Lifetime(ttl, default) >= 1000
    ensures var op := Define(actor, name, capacity, ttl, default);
      Succeeds(s, op) ==>
        var t, t' := s.tables, Step(s, op).tables;
        && (if actor == "" then t'.audit == t.audit else Logs(t, t', actor, ResourceDefined, name, name, s.now))
        && t'.leases == t.leases && t'.entries == t.entries && t'.resources.Keys == t.resources.Keys + {name}
        && t'.resources[name].capacity == capacity
        && t'.resources[name].timeToLive * 1000 <= Lifetime(ttl, default) < (t'.resources[name].timeToLive + 1) * 1000
        && forall other <- t.resources :: other != name ==> t'.resources[other] == t.resources[other]
  {
  }

  // ----- what an error means -----

  ghost predicate Fails(s: State, op: Op, e: Error)
    requires Enabled(s, op)
  {
    Transaction(s, op) == Err(e)
  }

  /** A holder learns whether its lease is unknown, somebody else's or over. */
  lemma RenewalErrors(now: Instant, ops: seq<Op>, agent: string, id: string)
    requires Reachable(now, ops)
    ensures var s, op := Reached(now, ops), Renew(agent, id);
      && (Fails(s, op, NotFound) <==> id !in s.tables.leases)
      && (Fails(s, op, Unauthorised) <==> id in s.tables.leases && s.tables.leases[id].agent != agent)
      && (Fails(s, op, Conflict) <==>
            id in s.tables.leases && s.tables.leases[id].agent == agent && !s.tables.leases[id].Active(s.now))
  {
    ReachableIsConsistent(now, ops);
  }

  lemma ReleaseErrors(s: State, agent: string, id: string, force: bool)
    ensures var op := Release(agent, id, force);
      && (Fails(s, op, NotFound) <==> id !in s.tables.leases)
      && (Fails(s, op, Unauthorised) <==> id in s.tables.leases && !force && s.tables.leases[id].agent != agent)
      && (Fails(s, op, InvalidArgument) <==>
            id in s.tables.leases && agent == "" && (force || s.tables.leases[id].agent == agent))
  {
  }

  /** Withdrawing twice, or after the slot was granted, is a conflict; somebody else's entry is not one's own even then. */
  lemma CancelErrors(s: State, agent: string, id: string, force: bool)
    ensures var op := Cancel(agent, id, force);
      && (Fails(s, op, NotFound) <==> id !in s.tables.entries)
      && (Fails(s, op, Unauthorised) <==> id in s.tables.entries && !force && s.tables.entries[id].agent != agent)
      && (Fails(s, op, Conflict) <==>
            && id in s.tables.entries && s.tables.entries[id].state != Waiting
            && (force || s.tables.entries[id].agent == agent))
  {
  }

  lemma JoinAndDefineErrors(now: Instant, ops: seq<Op>, id: string, agent: string, resource: string, priority: int, at: Instant,
                            actor: string, capacity: int, ttl: int, default: int)
    requires Reachable(now, ops) && at <= Reached(now, ops).now
    ensures var s, op := Reached(now, ops), Enqueue(id, agent, resource, priority, at);
      && (Fails(s, op, NotFound) <==> resource !in s.tables.resources)
      && (Fails(s, op, InvalidArgument) <==> resource in s.tables.resources && (id == "" || agent == ""))
      && (Fails(s, op, AlreadyExists) <==>
            resource in s.tables.resources && id != "" && agent != "" && id in s.tables.entries)
    ensures var s, op := Reached(now, ops), Define(actor, resource, capacity, ttl, default);
      Succeeds(s, op) || Fails(s, op, InvalidArgument)
  {
    ReachableIsConsistent(now, ops);
  }

  /** An attempt on an entry that does not exist or no longer waits says which. */
  lemma AttemptErrors(now: Instant, ops: seq<Op>, entry: string, id: string)
    requires Reachable(now, ops)
    ensures var s, op := Reached(now, ops), TryGrant(entry, id);
      && (Fails(s, op, NotFound) <==> entry !in s.tables.entries)
      && (Fails(s, op, Conflict) <==> entry in s.tables.entries && s.tables.entries[entry].state != Waiting)
  {
    ReachableIsConsistent(now, ops);
  }

  // ----- the operator's remedies -----

  /** A remedy fails exactly for a resource that does not exist, or without an actor while there is something to end. */
  lemma RemediesSucceed(s: State, op: Op)
    requires Enabled(s, op)
    ensures op.ReleaseHeldBy? ==> (Succeeds(s, op) <==> op.actor != "" || ActiveOf(s.tables, op.agent, op.at) == {})
    ensures op.FreeResource? ==>
      (Succeeds(s, op) <==> op.resource in s.tables.resources
                            && (op.actor != "" || ActiveOn(s.tables, op.resource, op.at) == {}))
    ensures op.ClearQueue? ==>
      (Succeeds(s, op) <==> op.resource in s.tables.resources
                            && (op.actor != "" || WaitingOn(s.tables, op.resource) == {}))
    ensures op.ReapExpired? ==> Succeeds(s, op)
    ensures op.FreeResource? || op.ClearQueue? ==> (Fails(s, op, NotFound) <==> op.resource !in s.tables.resources)
  {
    match op
    case ReleaseHeldBy(_, agent, at, rows, _) => NoRows(rows, ActiveOf(s.tables, agent, at));
    case FreeResource(_, resource, at, rows) => NoRows(rows, ActiveOn(s.tables, resource, at));
    case ClearQueue(_, resource, _, rows) => NoRows(rows, WaitingOn(s.tables, resource));
    case _ =>
  }

  lemma NoRows(rows: seq<string>, s: set<string>)
    requires Rows(rows, s)
    ensures rows == [] <==> s == {}
  {
    if rows != [] {
      assert rows[0] in rows;
    }
  }

  /** The leases a bulk operation is about, who does it, and how it is recorded. */
  ghost function Bulk(s: State, op: Op): (string, AuditAction, set<string>)
    requires op.ReleaseHeldBy? || op.FreeResource? || op.ReapExpired?
  {
    match op
    case ReleaseHeldBy(actor, agent, at, _, _) => (actor, LeaseReleased, ActiveOf(s.tables, agent, at))
    case FreeResource(actor, resource, at, _) => (actor, LeaseReleased, ActiveOn(s.tables, resource, at))
    case ReapExpired(at, _) => ("system", LeaseExpired, RanOut(s.tables, at))
  }

  /** Each lease a bulk operation ends is dated with its reading of the clock and has its record. */
  lemma BulkEndsAreRecorded(s: State, op: Op, id: string)
    requires Enabled(s, op) && (op.ReleaseHeldBy? || op.FreeResource? || op.ReapExpired?) && Succeeds(s, op)
    requires id in Bulk(s, op).2
    ensures var (actor, action, _) := Bulk(s, op);
      && id in s.tables.leases && id in Step(s, op).tables.leases
      && Step(s, op).tables.leases[id] == s.tables.leases[id].(releasedAt := Some(op.at))
      && AuditEntry(actor, action, s.tables.leases[id].resource, id, op.at) in Step(s, op).tables.audit
  {
    var rows := if op.ReleaseHeldBy? then op.leaseRows else op.rows;
    assert id in rows;
    var i :| 0 <= i < |rows| && rows[i] == id;
    var (actor, action, _) := Bulk(s, op);
    assert Step(s, op).tables.audit[|s.tables.audit| + i]
        == AuditEntry(actor, action, s.tables.leases[id].resource, id, op.at);
  }

  /** Entries a bulk operation cancels are dated the same way. */
  lemma BulkCancelsAreDated(s: State, op: Op, id: string)
    requires Enabled(s, op) && (op.ReleaseHeldBy? || op.ClearQueue?) && Succeeds(s, op)
    requires id in if op.ReleaseHeldBy? then WaitingOf(s.tables, op.agent) else WaitingOn(s.tables, op.resource)
    ensures id in s.tables.entries && id in Step(s, op).tables.entries
    ensures Step(s, op).tables.entries[id] == s.tables.entries[id].(state := Cancelled, resolvedAt := Some(op.at))
  {
    assert id in if op.ReleaseHeldBy? then op.entryRows else op.rows;
  }
}
