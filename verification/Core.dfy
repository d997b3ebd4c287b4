/** The domain vocabulary every component shares. */
module Core {

  datatype Option<+T> = None | Some(value: T)

  datatype Error =
    | NotFound
    | AlreadyExists
    | InvalidArgument
    | Unauthorised
    | CapacityReached
    | Conflict

  datatype Result<+T> = Ok(value: T) | Err(error: Error)

  /** A statement or transaction either has the specified effect or reports why it had none. */
  ghost predicate Effect<T>(before: T, after: T, spec: Result<T>, reported: Result<()>) {
    match spec
    case Ok(t) => reported == Ok(()) && after == t
    case Err(e) => reported == Err(e) && after == before
  }

  lemma SubsetSize<T>(a: set<T>, b: set<T>)
    requires a <= b
    ensures |a| <= |b|
  {
    assert b == a + (b - a);
  }

  lemma {:induction false} InjectionSize(f: map<string, string>, into: set<string>)
    requires forall x <- f :: f[x] in into
    requires forall x <- f, y <- f :: f[x] == f[y] ==> x == y
    ensures |f| <= |into|
    decreases |f|
  {
    if f != map[] {
      var x :| x in f;
      InjectionSize(f - {x}, into - {f[x]});
    }
  }

  /** Microseconds since the epoch, as the store keeps them. */
  type Instant = int

  const MAX_CAPACITY := 1024

  predicate LowerOrDigit(c: char) {
    'a' <= c <= 'z' || '0' <= c <= '9'
  }

  predicate NameChar(c: char) {
    LowerOrDigit(c) || c == '.' || c == '_' || c == '-'
  }

  /** A name used as an identity: 1 to 63 safe characters starting with a letter or digit. */
  predicate ValidName(name: string) {
    && 1 <= |name| <= 63
    && LowerOrDigit(name[0])
    && forall i :: 1 <= i < |name| ==> NameChar(name[i])
  }

  datatype Resource = Resource(capacity: int, timeToLive: int)

  datatype EntryState = Waiting | Granted | Cancelled | Expired
  {
    predicate Terminal() {
      !Waiting?
    }
  }

  datatype QueueEntry = QueueEntry(
    resource: string,
    agent: string,
    priority: int,
    state: EntryState,
    requestedAt: Instant,
    resolvedAt: Option<Instant>)

  datatype Lease = Lease(
    resource: string,
    agent: string,
    entry: string,
    acquiredAt: Instant,
    expiresAt: Instant,
    releasedAt: Option<Instant>)
  {
    /** The lease still occupies a slot at the given instant. */
    predicate Active(at: Instant) {
      releasedAt.None? && at < expiresAt
    }

    /** The lease still counts as held in the table, but its time is up. */
    predicate RanOut(at: Instant) {
      releasedAt.None? && expiresAt <= at
    }
  }

  datatype AuditAction =
    | ResourceDefined
    | QueueJoined
    | QueueCancelled
    | LeaseGranted
    | LeaseRenewed
    | LeaseReleased
    | LeaseExpired

  /** `about` is the lease or queue entry named in the record's detail. */
  datatype AuditEntry = AuditEntry(actor: string, action: AuditAction, target: string, about: string, at: Instant)

  const SYSTEM_ACTOR := "system"
}
