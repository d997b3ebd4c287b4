/**
 Many goroutines acquiring and changing slots at once. Taking a channel, running a transaction and
 announcing it are separate steps, and any interleaving of them is a run.
 */
module Wakeup {
  import opened Core
  import opened Ordering
  import opened LeaseTables
  import opened LeasingRuns
  import opened LeasingInvariants
  import opened Broadcast

  datatype Outcome =
    | Holds(entry: string, lease: string)  // Acquire returned this lease
    | Refused(entry: string)               // Acquire returned an error
    | Performed                            // some other operation returned

  datatype Thread =
    | Watching(entry: string, noWait: bool)                        // about to take the resource's channel
    | Looking(entry: string, noWait: bool, channel: nat)           // about to try for a slot
    | Parked(entry: string, channel: nat, lookedAt: Instant)       // asleep until the channel closes
    | GivingUp(entry: string, to: EntryState)                      // about to abandon the entry
    | Announcing(target: Target, result: Outcome)                   // committed, not yet signalled
    | Returned(outcome: Outcome)

  datatype World = World(state: State, board: Board, threads: map<nat, Thread>)

  datatype Action =
    | Start(thread: nat, entry: string, agent: string, resource: string, priority: int, requestedAt: Instant, noWait: bool)
    | Watch(thread: nat)
    | Look(thread: nat, lease: string)
    | Wake(thread: nat)                    // the channel closed
    | Timeout(thread: nat)                 // the safety-net timer fired
    | Leave(thread: nat)                   // the caller's context ended
    | GiveUp(thread: nat, at: Instant)
    | Signal(thread: nat)
    | Commit(thread: nat, op: Op)          // any other operation commits in a thread of its own
    | Elapse(micros: nat)

  ghost function ResourceOf(w: World, entry: string): string
    requires entry in w.state.tables.entries
  {
    w.state.tables.entries[entry].resource
  }

  /** What a committed operation announces, if anything. */
  ghost function Announcement(s: State, op: Op): Option<Target>
    requires Enabled(s, op)
  {
    if Transaction(s, op).Err? then None
    else
      match op
      case Define(_, name, _, _, _) => Some(One(name))
      case TryGrant(id, _) => if Grants(s, op) then Some(One(s.tables.entries[id].resource)) else None
      case Release(_, leaseId, _) => Some(One(s.tables.leases[leaseId].resource))
      case Cancel(_, id, _) => Some(One(s.tables.entries[id].resource))
      case ReleaseHeldBy(_, _, _, _, _) => Some(All)
      case FreeResource(_, resource, _, _) => Some(One(resource))
      case ClearQueue(_, resource, _, _) => Some(One(resource))
      case ReapExpired(_, rows) => if rows != [] then Some(All) else None
      case Abandon(id, _, _) => Some(One(s.tables.entries[id].resource))
      case _ => None
  }

  ghost function OpOf(w: World, a: Action): Op
    requires a.Start? || a.Look? || a.GiveUp? || a.Commit? || a.Elapse?
    requires a.Look? ==> a.thread in w.threads && w.threads[a.thread].Looking?
    requires a.GiveUp? ==> a.thread in w.threads && w.threads[a.thread].GivingUp?
  {
    match a
    case Start(_, entry, agent, resource, priority, requestedAt, _) => Enqueue(entry, agent, resource, priority, requestedAt)
    case Look(thread, lease) => TryGrant(w.threads[thread].entry, lease)
    case GiveUp(thread, at) => Abandon(w.threads[thread].entry, w.threads[thread].to, at)
    case Commit(_, op) => op
    case Elapse(micros) => Pass(micros)
  }

  ghost predicate Can(w: World, a: Action) {
    match a
    case Start(thread, _, _, _, _, _, _) =>
      thread !in w.threads && Enabled(w.state, OpOf(w, a)) && Transaction(w.state, OpOf(w, a)).Ok?
    case Watch(thread) =>
      thread in w.threads && w.threads[thread].Watching? && w.threads[thread].entry in w.state.tables.entries
    case Look(thread, _) => thread in w.threads && w.threads[thread].Looking?
    case Wake(thread) => thread in w.threads && w.threads[thread].Parked? && w.threads[thread].channel in w.board.closed
    case Timeout(thread) => thread in w.threads && w.threads[thread].Parked?
    case Leave(thread) => thread in w.threads && w.threads[thread].Parked?
    case GiveUp(thread, at) =>
      thread in w.threads && w.threads[thread].GivingUp? && Enabled(w.state, OpOf(w, a))
    case Signal(thread) => thread in w.threads && w.threads[thread].Announcing?
    case Commit(thread, op) =>
      && thread !in w.threads && Enabled(w.state, op)
      && !op.Enqueue? && !op.TryGrant? && !op.Abandon? && !op.Pass?
    case Elapse(_) => true
  }

  ghost function Moved(w: World, thread: nat, to: Thread): World {
    w.(threads := w.threads[thread := to])
  }

  ghost function Act(w: World, a: Action): World
    requires Can(w, a)
  {
    match a
    case Start(thread, entry, _, _, _, _, noWait) =>
      Moved(w.(state := Step(w.state, OpOf(w, a))), thread, Watching(entry, noWait))
    case Watch(thread) =>
      var th := w.threads[thread];
      var board := w.board.Watched(ResourceOf(w, th.entry));
      Moved(w.(board := board), thread, Looking(th.entry, th.noWait, board.current[ResourceOf(w, th.entry)]))
    case Look(thread, lease) =>
      var th := w.threads[thread];
      var op := OpOf(w, a);
      var next := w.(state := Step(w.state, op));
      if Transaction(w.state, op).Err? then Moved(next, thread, GivingUp(th.entry, Cancelled))
      else if Grants(w.state, op) then
        Moved(next, thread, Announcing(One(ResourceOf(w, th.entry)), Holds(th.entry, lease)))
      else if th.noWait then Moved(next, thread, GivingUp(th.entry, Expired))
      else Moved(next, thread, Parked(th.entry, th.channel, w.state.now))
    case Wake(thread) => Moved(w, thread, Watching(w.threads[thread].entry, false))
    case Timeout(thread) => Moved(w, thread, Watching(w.threads[thread].entry, false))
    case Leave(thread) => Moved(w, thread, GivingUp(w.threads[thread].entry, Cancelled))
    case GiveUp(thread, _) =>
      var th := w.threads[thread];
      var next := w.(state := Step(w.state, OpOf(w, a)));
      if Transaction(w.state, OpOf(w, a)).Ok?
      then Moved(next, thread, Announcing(One(ResourceOf(w, th.entry)), Refused(th.entry)))
      else Moved(next, thread, Returned(Refused(th.entry)))
    case Signal(thread) =>
      var th := w.threads[thread];
      Moved(w.(board := w.board.Signalled(th.target)), thread, Returned(th.result))
    case Commit(thread, op) =>
      var next := w.(state := Step(w.state, op));
      (match Announcement(w.state, op)
       case Some(target) => Moved(next, thread, Announcing(target, Performed))
       case None => Moved(next, thread, Returned(Performed)))
    case Elapse(_) => w.(state := Step(w.state, OpOf(w, a)))
  }

  ghost predicate Possible(w: World, run: seq<Action>)
    decreases |run|, 0
  {
    run == [] || (Possible(w, run[..|run| - 1]) && Can(After(w, run[..|run| - 1]), run[|run| - 1]))
  }

  ghost function After(w: World, run: seq<Action>): World
    requires Possible(w, run)
    decreases |run|, 1
  {
    if run == [] then w else Act(After(w, run[..|run| - 1]), run[|run| - 1])
  }

  ghost function Beginning(now: Instant): World {
    World(State(now, EMPTY), Board(map[], {}, 0), map[])
  }

  // ----- why a parked thread is rightly asleep -----

  /** Some thread has committed a change to the resource and has not signalled it yet. */
  ghost predicate Pending(w: World, resource: string) {
    exists t :: t in w.threads && w.threads[t].Announcing? && Covers(w.threads[t].target, resource)
  }

  /** Nothing committed since `at` lets this entry have a slot: it is not at the head, or every slot
      was taken at `at` and has not been given back since. */
  ghost predicate Blocked(t: Tables, entry: string, at: Instant) {
    && entry in t.entries && t.entries[entry].state == Waiting
    && var resource := t.entries[entry].resource;
       && resource in t.resources
       && (!IsHead(t, resource, entry) || |ActiveOn(t, resource, at)| >= t.resources[resource].capacity)
  }

  /** The entry could be granted right now. */
  ghost predicate Grantable(s: State, entry: string) {
    && entry in s.tables.entries
    && IsHead(s.tables, s.tables.entries[entry].resource, entry)
    && Holding(s, s.tables.entries[entry].resource) < Capacity(s, s.tables.entries[entry].resource)
  }

  // ----- the invariant -----

  ghost predicate Live(th: Thread) {
    th.Watching? || th.Looking? || th.Parked? || th.GivingUp?
  }

  /** A thread in the middle of acquiring owns its entry, and nobody else can have it granted. */
  ghost predicate Owns(w: World, t: nat)
    requires t in w.threads
  {
    Live(w.threads[t]) ==>
      w.threads[t].entry in w.state.tables.entries && w.state.tables.entries[w.threads[t].entry].state != Granted
  }

  /** A channel a thread took is closed, or is still the one the next signal will close. */
  ghost predicate Hears(w: World, t: nat)
    requires t in w.threads && Owns(w, t)
  {
    var th := w.threads[t];
    th.Looking? || th.Parked? ==>
      && th.channel < w.board.issued
      && (th.channel in w.board.closed
          || (ResourceOf(w, th.entry) in w.board.current && w.board.current[ResourceOf(w, th.entry)] == th.channel))
  }

  ghost predicate SleepsRightly(w: World, t: nat)
    requires t in w.threads && Owns(w, t)
  {
    var th := w.threads[t];
    th.Parked? && th.channel !in w.board.closed && !Pending(w, ResourceOf(w, th.entry)) ==>
      th.lookedAt <= w.state.now && Blocked(w.state.tables, th.entry, th.lookedAt)
  }

  /** What a finished acquire left behind. */
  ghost predicate Settled(t: Tables, outcome: Outcome) {
    match outcome
    case Holds(entry, lease) => lease in t.leases && t.leases[lease].entry == entry
    case Refused(entry) =>
      && entry in t.entries
      && (t.entries[entry].state == Cancelled || t.entries[entry].state == Expired)
    case Performed => true
  }

  ghost predicate Promised(w: World, t: nat)
    requires t in w.threads
  {
    match w.threads[t]
    case Announcing(_, outcome) => Settled(w.state.tables, outcome)
    case Returned(outcome) => Settled(w.state.tables, outcome)
    case GivingUp(_, to) => to == Cancelled || to == Expired
    case Parked(_, _, at) => at <= w.state.now
    case _ => true
  }

  ghost predicate Fares(w: World, t: nat)
    requires t in w.threads
  {
    Owns(w, t) && Hears(w, t) && SleepsRightly(w, t) && Promised(w, t)
  }

  ghost predicate Sound(w: World) {
    && Consistent(w.state.tables)
    && w.board.Valid()
    && (forall t <- w.threads :: Fares(w, t))
    && (forall t <- w.threads, u <- w.threads ::
          t != u && Live(w.threads[t]) && Live(w.threads[u]) ==> w.threads[t].entry != w.threads[u].entry)
  }

  // ----- what a step of the tables does to threads that do not take it -----

  /** A change that is not announced to a resource leaves everyone blocked on it blocked. */
  lemma QuietStepsKeepBlocked(s: State, op: Op, entry: string, at: Instant)
    requires Enabled(s, op) && Consistent(s.tables)
    requires at <= s.now && Blocked(s.tables, entry, at)
    requires Announcement(s, op).Some? ==> !Covers(Announcement(s, op).value, s.tables.entries[entry].resource)
    ensures Blocked(Step(s, op).tables, entry, at)
  {
    var t, t' := s.tables, Step(s, op).tables;
    var resource := t.entries[entry].resource;
    StepKeepsEntries(s, op);
    StepKeepsResources(s, op, resource);
    QuietStepsKeepWaiting(s, op, entry);
    if IsHead(t', resource, entry) {
      QuietStepsKeepQueue(s, op, resource);
      assert IsHead(t, resource, entry);
      QuietStepsKeepHolders(s, op, resource, at);
      SubsetSize(ActiveOn(t, resource, at), ActiveOn(t', resource, at));
    }
  }

  lemma QuietStepsKeepWaiting(s: State, op: Op, entry: string)
    requires Enabled(s, op) && Waits(s, entry)
    requires Announcement(s, op).Some? ==> !Covers(Announcement(s, op).value, s.tables.entries[entry].resource)
    ensures Waits(Step(s, op), entry)
  {
  }

  lemma QuietStepsKeepQueue(s: State, op: Op, resource: string)
    requires Enabled(s, op)
    requires Announcement(s, op).Some? ==> !Covers(Announcement(s, op).value, resource)
    ensures forall e <- s.tables.entries :: IsWaitingOn(s.tables, resource, e) ==>
      IsWaitingOn(Step(s, op).tables, resource, e) && Step(s, op).tables.entries[e] == s.tables.entries[e]
  {
  }

  lemma QuietStepsKeepHolders(s: State, op: Op, resource: string, at: Instant)
    requires Enabled(s, op) && ResourcesFormed(s.tables) && at <= s.now
    requires Announcement(s, op).Some? ==> !Covers(Announcement(s, op).value, resource)
    ensures ActiveOn(s.tables, resource, at) <= ActiveOn(Step(s, op).tables, resource, at)
  {
  }

  /** What every step of the tables leaves as it was. */
  ghost predicate Carries(s: State, s': State) {
    && s.now <= s'.now
    && (forall e <- s.tables.entries ::
          && e in s'.tables.entries && s'.tables.entries[e].resource == s.tables.entries[e].resource
          && (s.tables.entries[e].state != Waiting ==> s'.tables.entries[e].state == s.tables.entries[e].state))
    && (forall l <- s.tables.leases :: l in s'.tables.leases && s'.tables.leases[l].entry == s.tables.leases[l].entry)
  }

  lemma StepCarries(s: State, op: Op)
    requires Enabled(s, op)
    ensures Carries(s, Step(s, op))
  {
    StepKeepsEntries(s, op);
    StepKeepsLeases(s, op);
  }

  lemma OnlyAGrantGrants(s: State, op: Op, entry: string)
    requires Enabled(s, op) && entry in s.tables.entries && s.tables.entries[entry].state != Granted
    requires Grants(s, op) ==> op.id != entry
    ensures Step(s, op).tables.entries[entry].state != Granted
  {
    StepKeepsEntries(s, op);
  }

  lemma CarriedThread(w: World, w': World, t: nat)
    requires t in w.threads && t in w'.threads && w'.threads[t] == w.threads[t] && w'.board == w.board
    requires Fares(w, t) && Carries(w.state, w'.state)
    requires Live(w.threads[t]) ==> w'.state.tables.entries[w.threads[t].entry].state != Granted
    ensures Owns(w', t) && Hears(w', t) && Promised(w', t)
  {
  }

  /** A step of the tables keeps what finished and unfinished threads rely on. */
  lemma StepKeepsThread(w: World, w': World, op: Op, t: nat)
    requires Sound(w) && Enabled(w.state, op) && t in w.threads && t in w'.threads
    requires w'.threads[t] == w.threads[t] && w'.state == Step(w.state, op)
    requires w'.board == w.board
    requires forall r :: Pending(w, r) ==> Pending(w', r)
    requires Announcement(w.state, op).Some? ==>
      forall r :: Covers(Announcement(w.state, op).value, r) ==> Pending(w', r)
    requires Grants(w.state, op) && Live(w.threads[t]) ==> w.threads[t].entry != op.id
    ensures Fares(w', t)
  {
    var th := w.threads[t];
    assert Fares(w, t);
    StepCarries(w.state, op);
    if Live(th) {
      OnlyAGrantGrants(w.state, op, th.entry);
    }
    CarriedThread(w, w', t);
    if th.Parked? && th.channel !in w.board.closed && !Pending(w', ResourceOf(w', th.entry)) {
      QuietStepsKeepBlocked(w.state, op, th.entry, th.lookedAt);
    }
  }

  lemma StaysPending(w: World, w': World, moved: nat)
    requires moved !in w.threads || !w.threads[moved].Announcing?
    requires forall t <- w.threads :: t != moved ==> t in w'.threads && w'.threads[t] == w.threads[t]
    ensures forall r :: Pending(w, r) ==> Pending(w', r)
  {
    forall r | Pending(w, r) ensures Pending(w', r) {
      var t :| t in w.threads && w.threads[t].Announcing? && Covers(w.threads[t].target, r);
      assert t in w'.threads && w'.threads[t].Announcing?;
    }
  }

  /** A thread commits something and everybody else is carried along. */
  lemma CommitKeepsOthers(w: World, w': World, op: Op, moved: nat)
    requires Sound(w) && Enabled(w.state, op) && moved in w'.threads
    requires w'.state == Step(w.state, op) && w'.board == w.board
    requires w'.threads == w.threads[moved := w'.threads[moved]]
    requires moved in w.threads ==> Live(w.threads[moved])
    requires Announcement(w.state, op).Some? ==>
      w'.threads[moved].Announcing? && w'.threads[moved].target == Announcement(w.state, op).value
    requires Grants(w.state, op) ==> moved in w.threads && w.threads[moved].entry == op.id
    ensures forall t <- w.threads :: t != moved ==> Fares(w', t)
  {
    StaysPending(w, w', moved);
    if Announcement(w.state, op).Some? {
      forall r | Covers(Announcement(w.state, op).value, r) ensures Pending(w', r) {
        assert w'.threads[moved].Announcing? && Covers(w'.threads[moved].target, r);
      }
    }
    forall t <- w.threads | t != moved ensures Fares(w', t) {
      StepKeepsThread(w, w', op, t);
    }
  }

  /** Everything is in order after a commit if it is for the thread that made it. */
  lemma CommitKeepsSoundIf(w: World, w': World, op: Op, moved: nat)
    requires Sound(w) && Enabled(w.state, op) && moved in w'.threads
    requires w'.state == Step(w.state, op) && w'.board == w.board
    requires w'.threads == w.threads[moved := w'.threads[moved]]
    requires forall t <- w.threads :: t != moved ==> Fares(w', t)
    requires Fares(w', moved)
    requires Live(w'.threads[moved]) ==>
      forall t <- w.threads :: t != moved && Live(w.threads[t]) ==> w.threads[t].entry != w'.threads[moved].entry
    ensures Sound(w')
  {
    StepPreserves(w.state, op);
  }

  lemma StartKeepsSound(w: World, a: Action)
    requires Sound(w) && Can(w, a) && a.Start?
    ensures Sound(Act(w, a))
  {
    var w', op := Act(w, a), OpOf(w, a);
    assert a.entry !in w.state.tables.entries;
    CommitKeepsOthers(w, w', op, a.thread);
    forall t <- w.threads | Live(w.threads[t]) ensures w.threads[t].entry != a.entry {
      assert Fares(w, t);
    }
    CommitKeepsSoundIf(w, w', op, a.thread);
  }

  lemma WatchKeepsSound(w: World, a: Action)
    requires Sound(w) && Can(w, a) && a.Watch?
    ensures Sound(Act(w, a))
  {
    WatchedKeepsSound(w, a.thread, Act(w, a));
  }

  lemma WatchedKeepsSound(w: World, moved: nat, w': World)
    requires Sound(w) && moved in w.threads && w.threads[moved].Watching?
    requires var th := w.threads[moved];
      && th.entry in w.state.tables.entries
      && var resource := ResourceOf(w, th.entry);
         && w' == Moved(w.(board := w.board.Watched(resource)), moved,
                        Looking(th.entry, th.noWait, w.board.Watched(resource).current[resource]))
    ensures Sound(w')
  {
    WatchedIsValid(w.board, ResourceOf(w, w.threads[moved].entry));
    StaysPending(w, w', moved);
    forall t <- w'.threads ensures Fares(w', t) {
      assert t in w.threads && Fares(w, t);
    }
  }

  /** An unsuccessful look changes nothing, and if it was answered the entry is blocked as of now. */
  lemma LookFindsBlocked(s: State, entry: string, lease: string)
    requires Consistent(s.tables) && entry in s.tables.entries
    requires !Grants(s, TryGrant(entry, lease))
    ensures Step(s, TryGrant(entry, lease)) == s
    ensures Transaction(s, TryGrant(entry, lease)).Ok? ==> Blocked(s.tables, entry, s.now)
  {
  }

  lemma GrantedLookKeepsSound(w: World, a: Action)
    requires Sound(w) && Can(w, a) && a.Look? && Grants(w.state, OpOf(w, a))
    ensures Sound(Act(w, a))
  {
    var w' := Act(w, a);
    var th := w.threads[a.thread];
    assert OpOf(w, a) == TryGrant(th.entry, a.lease);
    assert w'.threads == w.threads[a.thread := Announcing(One(ResourceOf(w, th.entry)), Holds(th.entry, a.lease))];
    assert w'.board == w.board;
    CommitKeepsOthers(w, w', OpOf(w, a), a.thread);
    GrantedLease(w.state, th.entry, a.lease);
    assert Promised(w', a.thread);
    CommitKeepsSoundIf(w, w', OpOf(w, a), a.thread);
  }

  lemma GrantedLease(s: State, entry: string, lease: string)
    requires Grants(s, TryGrant(entry, lease))
    ensures lease in Step(s, TryGrant(entry, lease)).tables.leases
    ensures Step(s, TryGrant(entry, lease)).tables.leases[lease].entry == entry
  {
  }

  /** A thread moves on with its acquisition; tables and channels stay as they are. */
  lemma MoveKeepsSoundIf(w: World, moved: nat, to: Thread)
    requires Sound(w) && moved in w.threads && Live(w.threads[moved])
    requires Live(to) && to.entry == w.threads[moved].entry
    requires Fares(Moved(w, moved, to), moved)
    ensures Sound(Moved(w, moved, to))
  {
    var w' := Moved(w, moved, to);
    StaysPending(w, w', moved);
    forall t <- w'.threads ensures Fares(w', t) {
      assert t in w.threads && Fares(w, t);
    }
  }

  lemma RefusedLookKeepsSound(w: World, a: Action)
    requires Sound(w) && Can(w, a) && a.Look? && !Grants(w.state, OpOf(w, a))
    ensures Sound(Act(w, a))
  {
    assert Fares(w, a.thread);
    LookFindsBlocked(w.state, w.threads[a.thread].entry, a.lease);
    var to := Act(w, a).threads[a.thread];
    assert Act(w, a) == Moved(w, a.thread, to);
    MoveKeepsSoundIf(w, a.thread, to);
  }

  lemma MoveKeepsSound(w: World, a: Action)
    requires Sound(w) && Can(w, a) && (a.Wake? || a.Timeout? || a.Leave?)
    ensures Sound(Act(w, a))
  {
    assert Fares(w, a.thread);
    var to := Act(w, a).threads[a.thread];
    assert Act(w, a) == Moved(w, a.thread, to);
    MoveKeepsSoundIf(w, a.thread, to);
  }

  lemma GiveUpKeepsSound(w: World, a: Action)
    requires Sound(w) && Can(w, a) && a.GiveUp?
    ensures Sound(Act(w, a))
  {
    assert Fares(w, a.thread);
    CommitKeepsOthers(w, Act(w, a), OpOf(w, a), a.thread);
    CommitKeepsSoundIf(w, Act(w, a), OpOf(w, a), a.thread);
  }

  lemma CommitKeepsSound(w: World, a: Action)
    requires Sound(w) && Can(w, a) && a.Commit?
    ensures Sound(Act(w, a))
  {
    CommitKeepsOthers(w, Act(w, a), a.op, a.thread);
    CommitKeepsSoundIf(w, Act(w, a), a.op, a.thread);
  }

  lemma ElapseKeepsSound(w: World, a: Action)
    requires Sound(w) && Can(w, a) && a.Elapse?
    ensures Sound(Act(w, a))
  {
    var w' := Act(w, a);
    forall t <- w'.threads ensures Fares(w', t) {
      assert t in w.threads && Fares(w, t);
      assert forall r :: Pending(w, r) ==> Pending(w', r);
    }
  }

  /** Signalling a change only settles debts to those it wakes. */
  lemma SignalKeepsSound(w: World, a: Action)
    requires Sound(w) && Can(w, a) && a.Signal?
    ensures Sound(Act(w, a))
  {
    SignalledKeepsSound(w, a.thread, Act(w, a));
  }

  lemma SignalledFares(w: World, moved: nat, w': World, t: nat)
    requires Sound(w) && moved in w.threads && w.threads[moved].Announcing? && t in w.threads && t != moved
    requires var th := w.threads[moved];
      w' == Moved(w.(board := w.board.Signalled(th.target)), moved, Returned(th.result))
    ensures Fares(w', t)
  {
    var target, th := w.threads[moved].target, w.threads[t];
    assert Fares(w, t);
    if (th.Looking? || th.Parked?) && th.channel !in w.board.closed {
      var resource := ResourceOf(w, th.entry);
      SignalClosesWhatItCovers(w.board, target, resource);
      if th.Parked? && th.channel !in w'.board.closed && Pending(w, resource) {
        var u :| u in w.threads && w.threads[u].Announcing? && Covers(w.threads[u].target, resource);
        assert u in w'.threads && w'.threads[u].Announcing?;
      }
    }
  }

  lemma SignalledKeepsSound(w: World, moved: nat, w': World)
    requires Sound(w) && moved in w.threads && w.threads[moved].Announcing?
    requires var th := w.threads[moved];
      w' == Moved(w.(board := w.board.Signalled(th.target)), moved, Returned(th.result))
    ensures Sound(w')
  {
    assert Fares(w, moved);
    SignalledIsValid(w.board, w.threads[moved].target);
    forall t <- w'.threads | t != moved ensures Fares(w', t) {
      SignalledFares(w, moved, w', t);
    }
  }

  lemma ActKeepsSound(w: World, a: Action)
    requires Sound(w) && Can(w, a)
    ensures Sound(Act(w, a))
  {
    match a
    case Start(_, _, _, _, _, _, _) => StartKeepsSound(w, a);
    case Watch(_) => WatchKeepsSound(w, a);
    case Look(_, _) =>
      if Grants(w.state, OpOf(w, a)) {
        GrantedLookKeepsSound(w, a);
      } else {
        RefusedLookKeepsSound(w, a);
      }
    case Wake(_) => MoveKeepsSound(w, a);
    case Timeout(_) => MoveKeepsSound(w, a);
    case Leave(_) => MoveKeepsSound(w, a);
    case GiveUp(_, _) => GiveUpKeepsSound(w, a);
    case Signal(_) => SignalKeepsSound(w, a);
    case Commit(_, _) => CommitKeepsSound(w, a);
    case Elapse(_) => ElapseKeepsSound(w, a);
  }

  lemma {:induction false} RunsAreSound(now: Instant, run: seq<Action>)
    requires Possible(Beginning(now), run)
    ensures Sound(After(Beginning(now), run))
  {
    if run != [] {
      RunsAreSound(now, run[..|run| - 1]);
      ActKeepsSound(After(Beginning(now), run[..|run| - 1]), run[|run| - 1]);
    }
  }

  // ----- the theorems -----

  /**
   No lost wake-up. In every interleaving, a thread asleep on an open channel although its entry could
   be granted or is no longer waiting has a wake-up coming: somebody has committed a change to the
   resource and not signalled it yet. Otherwise the entry does wait, every slot was taken when the
   thread last looked, and the only room since is a lease that passed its expiry, which the timer covers.
   */
  lemma NoLostWakeup(now: Instant, run: seq<Action>, t: nat)
    requires Possible(Beginning(now), run)
    requires t in After(Beginning(now), run).threads && After(Beginning(now), run).threads[t].Parked?
    requires var w := After(Beginning(now), run);
      && w.threads[t].channel !in w.board.closed
      && (!Waits(w.state, w.threads[t].entry) || Grantable(w.state, w.threads[t].entry))
    ensures var w := After(Beginning(now), run);
      var th := w.threads[t];
      && th.entry in w.state.tables.entries
      && var resource := ResourceOf(w, th.entry);
         Pending(w, resource)
         || (&& Waits(w.state, th.entry)
             && |ActiveOn(w.state.tables, resource, th.lookedAt)| >= Capacity(w.state, resource)
             && exists id <- ActiveOn(w.state.tables, resource, th.lookedAt) ::
                  w.state.tables.leases[id].RanOut(w.state.now))
  {
    RunsAreSound(now, run);
    var w := After(Beginning(now), run);
    var th := w.threads[t];
    assert Owns(w, t) && SleepsRightly(w, t);
    var resource := ResourceOf(w, th.entry);
    if !Pending(w, resource) {
      var held := ActiveOn(w.state.tables, resource, th.lookedAt);
      var active := ActiveOn(w.state.tables, resource, w.state.now);
      if held <= active {
        SubsetSize(held, active);
        assert false;
      }
      var id :| id in held && id !in active;
      assert w.state.tables.leases[id].RanOut(w.state.now);
    }
  }

  /** A signal wakes every thread asleep on a resource it covers, and the channel it hears of next is open. */
  lemma SignalWakesEveryone(now: Instant, run: seq<Action>, signaller: nat, t: nat)
    requires Possible(Beginning(now), run) && Can(After(Beginning(now), run), Signal(signaller))
    requires var w := After(Beginning(now), run);
      && t in w.threads && w.threads[t].Parked? && w.threads[t].entry in w.state.tables.entries
      && Covers(w.threads[signaller].target, ResourceOf(w, w.threads[t].entry))
    ensures Can(Act(After(Beginning(now), run), Signal(signaller)), Wake(t))
  {
    RunsAreSound(now, run);
    var w := After(Beginning(now), run);
    assert Owns(w, t) && Hears(w, t);
    if w.threads[t].channel !in w.board.closed {
      SignalClosesWhatItCovers(w.board, w.threads[signaller].target, ResourceOf(w, w.threads[t].entry));
    }
  }

  /** An acquire that returned a lease left its entry granted, with that lease and no other naming it. */
  lemma AcquireReturnsItsLease(now: Instant, run: seq<Action>, t: nat)
    requires Possible(Beginning(now), run)
    requires t in After(Beginning(now), run).threads
    requires After(Beginning(now), run).threads[t].Returned? && After(Beginning(now), run).threads[t].outcome.Holds?
    ensures var w := After(Beginning(now), run);
      var outcome := w.threads[t].outcome;
      && outcome.entry in w.state.tables.entries
      && w.state.tables.entries[outcome.entry].state == Granted
      && LeasesNaming(w.state.tables, outcome.entry) == {outcome.lease}
  {
    RunsAreSound(now, run);
    assert Promised(After(Beginning(now), run), t);
  }

  /** An acquire that failed left its entry cancelled or expired, with no lease naming it. */
  lemma FailedAcquireHoldsNothing(now: Instant, run: seq<Action>, t: nat)
    requires Possible(Beginning(now), run)
    requires t in After(Beginning(now), run).threads
    requires After(Beginning(now), run).threads[t].Returned? && After(Beginning(now), run).threads[t].outcome.Refused?
    ensures var w := After(Beginning(now), run);
      var entry := w.threads[t].outcome.entry;
      && entry in w.state.tables.entries
      && (w.state.tables.entries[entry].state == Cancelled || w.state.tables.entries[entry].state == Expired)
      && LeasesNaming(w.state.tables, entry) == {}
  {
    RunsAreSound(now, run);
    assert Promised(After(Beginning(now), run), t);
  }
}
