/** What one acquisition does, from the step that starts it to the lease or the error it returns. */
module Acquisitions {
  import opened Core
  import opened Ordering
  import opened LeaseTables
  import opened LeasingRuns
  import opened Broadcast
  import opened Wakeup

  /** Step i of the run starts this thread's acquisition. */
  predicate StartedAt(run: seq<Action>, i: int, t: nat, entry: string, noWait: bool) {
    0 <= i < |run| && run[i].Start? && run[i].thread == t && run[i].entry == entry && run[i].noWait == noWait
  }

  /** Where a thread may have got to, given how it was started. */
  ghost predicate Follows(th: Thread, entry: string, noWait: bool) {
    match th
    case Watching(e, n) => e == entry && n == noWait
    case Looking(e, n, _) => e == entry && n == noWait
    case Parked(e, _, _) => e == entry && !noWait
    case GivingUp(e, to) => e == entry && (to == Cancelled || (to == Expired && noWait))
    case Announcing(_, outcome) => Names(outcome, entry)
    case Returned(outcome) => Names(outcome, entry)
  }

  predicate Names(outcome: Outcome, entry: string) {
    match outcome
    case Holds(e, _) => e == entry
    case Refused(e) => e == entry
    case Performed => false
  }

  lemma StepFollows(w: World, a: Action, t: nat, entry: string, noWait: bool)
    requires Can(w, a) && t in w.threads && Follows(w.threads[t], entry, noWait)
    ensures t in Act(w, a).threads && Follows(Act(w, a).threads[t], entry, noWait)
  {
  }

  lemma {:induction false} ThreadFollowsStart(now: Instant, run: seq<Action>, i: nat, t: nat, entry: string, noWait: bool)
    requires Possible(Beginning(now), run) && StartedAt(run, i, t, entry, noWait)
    ensures t in After(Beginning(now), run).threads
    ensures Follows(After(Beginning(now), run).threads[t], entry, noWait)
  {
    var before := run[..|run| - 1];
    if i < |before| {
      ThreadFollowsStart(now, before, i, t, entry, noWait);
      StepFollows(After(Beginning(now), before), run[|run| - 1], t, entry, noWait);
    }
  }

  lemma {:induction false} PrefixIsPossible(w: World, run: seq<Action>, j: nat)
    requires Possible(w, run) && j <= |run|
    ensures Possible(w, run[..j])
    ensures j < |run| ==> Can(After(w, run[..j]), run[j]) && Possible(w, run[..j + 1])
                          && After(w, run[..j + 1]) == Act(After(w, run[..j]), run[j])
    decreases |run|
  {
    if j == |run| {
      assert run[..j] == run;
    } else if j == |run| - 1 {
      assert run[..j + 1] == run;
    } else {
      var before := run[..|run| - 1];
      PrefixIsPossible(w, before, j);
      assert before[..j] == run[..j] && before[..j + 1] == run[..j + 1];
    }
  }

  // ----- the look -----

  /** The world before step j. */
  ghost function At(now: Instant, run: seq<Action>, j: nat): World
    requires Possible(Beginning(now), run) && j <= |run|
  {
    PrefixIsPossible(Beginning(now), run, j);
    After(Beginning(now), run[..j])
  }

  /** Step j is this thread's look, and it was answered: no slot yet. */
  ghost predicate AnsweredNo(now: Instant, run: seq<Action>, j: int, t: nat, entry: string)
    requires Possible(Beginning(now), run)
  {
    && 0 <= j < |run| && run[j].Look? && run[j].thread == t
    && var op := TryGrant(entry, run[j].lease);
       Transaction(At(now, run, j).state, op).Ok? && !Grants(At(now, run, j).state, op)
  }

  /** Step j is this thread's look, and its transaction failed. */
  ghost predicate LookFailed(now: Instant, run: seq<Action>, j: int, t: nat, entry: string)
    requires Possible(Beginning(now), run)
  {
    && 0 <= j < |run| && run[j].Look? && run[j].thread == t
    && Transaction(At(now, run, j).state, TryGrant(entry, run[j].lease)).Err?
  }

  /** Step j is this thread's caller giving up on it. */
  predicate LeftAt(run: seq<Action>, j: int, t: nat) {
    0 <= j < |run| && run[j].Leave? && run[j].thread == t
  }

  lemma LookStep(w: World, a: Action, entry: string, noWait: bool, channel: nat)
    requires Can(w, a) && a.Look? && w.threads[a.thread] == Looking(entry, noWait, channel)
    ensures var th, op := Act(w, a).threads[a.thread], TryGrant(entry, a.lease);
      if Grants(w.state, op) then th.Announcing? && th.result == Holds(entry, a.lease)
      else if Transaction(w.state, op).Err? then th == GivingUp(entry, Cancelled)
      else if noWait then th == GivingUp(entry, Expired)
      else th == Parked(entry, channel, w.state.now)
  {
  }

  /**
   A look ends in one of four ways: with a slot it is announced; failed, the entry is to be cancelled;
   answered without a slot, the thread goes to sleep on the channel it took, or with noWait the entry
   is to expire.
   */
  lemma LookDecides(now: Instant, run: seq<Action>, i: nat, j: nat, t: nat, entry: string, noWait: bool)
    requires Possible(Beginning(now), run) && StartedAt(run, i, t, entry, noWait)
    requires i < j < |run| && run[j].Look? && run[j].thread == t
    ensures t in At(now, run, j).threads && At(now, run, j).threads[t].Looking? && t in At(now, run, j + 1).threads
    ensures var w, th := At(now, run, j), At(now, run, j + 1).threads[t];
      var op := TryGrant(entry, run[j].lease);
      if Grants(w.state, op) then th.Announcing? && th.result == Holds(entry, run[j].lease)
      else if LookFailed(now, run, j, t, entry) then th == GivingUp(entry, Cancelled)
      else if noWait then th == GivingUp(entry, Expired)
      else th == Parked(entry, w.threads[t].channel, w.state.now)
  {
    PrefixIsPossible(Beginning(now), run, j);
    assert StartedAt(run[..j], i, t, entry, noWait);
    ThreadFollowsStart(now, run[..j], i, t, entry, noWait);
    LookStep(At(now, run, j), run[j], entry, noWait, At(now, run, j).threads[t].channel);
  }

  /** Without waiting an acquisition never sleeps. */
  lemma NoWaitNeverSleeps(now: Instant, run: seq<Action>, i: nat, t: nat, entry: string)
    requires Possible(Beginning(now), run) && StartedAt(run, i, t, entry, true)
    ensures t in After(Beginning(now), run).threads && !After(Beginning(now), run).threads[t].Parked?
  {
    ThreadFollowsStart(now, run, i, t, entry, true);
  }

  /** A closed channel or the timer sends a sleeper back to watch again, and nothing else does. */
  lemma SleeperWatchesAgain(w: World, a: Action, t: nat)
    requires Can(w, a) && t in w.threads && w.threads[t].Parked?
    ensures t in Act(w, a).threads
    ensures Act(w, a).threads[t] ==
      if (a.Wake? || a.Timeout?) && a.thread == t then Watching(w.threads[t].entry, false)
      else if a.Leave? && a.thread == t then GivingUp(w.threads[t].entry, Cancelled)
      else w.threads[t]
  {
  }

  // ----- giving up -----

  /** Why a thread is giving up, and what its entry is to become. */
  ghost predicate HasReason(now: Instant, run: seq<Action>, t: nat, entry: string, noWait: bool, to: EntryState)
    requires Possible(Beginning(now), run)
  {
    if to == Expired then noWait && exists j :: AnsweredNo(now, run, j, t, entry)
    else to == Cancelled && ((exists j :: LookFailed(now, run, j, t, entry)) || (!noWait && exists j :: LeftAt(run, j, t)))
  }

  lemma ReasonStays(now: Instant, run: seq<Action>, a: Action, t: nat, entry: string, noWait: bool, to: EntryState)
    requires Possible(Beginning(now), run + [a]) && Possible(Beginning(now), run) && HasReason(now, run, t, entry, noWait, to)
    ensures HasReason(now, run + [a], t, entry, noWait, to)
  {
    var more := run + [a];
    assert forall j :: 0 <= j <= |run| ==> more[..j] == run[..j];
    if to == Expired {
      var j :| AnsweredNo(now, run, j, t, entry);
      assert AnsweredNo(now, more, j, t, entry);
    } else if exists j :: LookFailed(now, run, j, t, entry) {
      var j :| LookFailed(now, run, j, t, entry);
      assert LookFailed(now, more, j, t, entry);
    } else {
      var j :| LeftAt(run, j, t);
      assert LeftAt(more, j, t);
    }
  }

  /** A thread is made to give up by its own look or by its caller leaving it asleep. */
  lemma StepGivesUp(w: World, a: Action, t: nat)
    requires Can(w, a) && t in w.threads && Live(w.threads[t]) && !w.threads[t].GivingUp?
    requires t in Act(w, a).threads && Act(w, a).threads[t].GivingUp?
    ensures a.Look? || a.Leave?
    ensures a.thread == t && Act(w, a).threads[t].entry == w.threads[t].entry
    ensures a.Leave? ==> w.threads[t].Parked? && Act(w, a).threads[t].to == Cancelled
  {
  }

  /** Such a step is the thread's reason. */
  lemma LookIsReason(now: Instant, run: seq<Action>, i: nat, t: nat, entry: string, noWait: bool)
    requires run != [] && Possible(Beginning(now), run) && StartedAt(run, i, t, entry, noWait) && i < |run| - 1
    requires run[|run| - 1].Look? && run[|run| - 1].thread == t
    requires t in After(Beginning(now), run).threads && After(Beginning(now), run).threads[t].GivingUp?
    ensures HasReason(now, run, t, entry, noWait, After(Beginning(now), run).threads[t].to)
  {
    var j := |run| - 1;
    assert run[..j + 1] == run;
    LookDecides(now, run, i, j, t, entry, noWait);
    assert AnsweredNo(now, run, j, t, entry) || LookFailed(now, run, j, t, entry);
  }

  /**
   An acquisition gives up only because its look failed or, where it waits, its caller left, and then its
   entry is to be cancelled; or, where it does not wait, because its look was answered without a slot.
   */
  lemma {:induction false} GivesUpForAReason(now: Instant, run: seq<Action>, i: nat, t: nat, entry: string, noWait: bool)
    requires Possible(Beginning(now), run) && StartedAt(run, i, t, entry, noWait)
    requires t in After(Beginning(now), run).threads && After(Beginning(now), run).threads[t].GivingUp?
    ensures After(Beginning(now), run).threads[t].entry == entry
    ensures HasReason(now, run, t, entry, noWait, After(Beginning(now), run).threads[t].to)
  {
    ThreadFollowsStart(now, run, i, t, entry, noWait);
    var before, last := run[..|run| - 1], run[|run| - 1];
    assert run == before + [last];
    if i < |before| {
      ThreadFollowsStart(now, before, i, t, entry, noWait);
      if After(Beginning(now), before).threads[t] == After(Beginning(now), run).threads[t] {
        GivesUpForAReason(now, before, i, t, entry, noWait);
        ReasonStays(now, before, last, t, entry, noWait, After(Beginning(now), run).threads[t].to);
      } else {
        StepGivesUp(After(Beginning(now), before), last, t);
        if last.Look? {
          LookIsReason(now, run, i, t, entry, noWait);
        } else {
          assert LeftAt(run, |before|, t);
        }
      }
    }
  }

  lemma GiveUpResolvesEntry(w: World, a: Action, entry: string, to: EntryState)
    requires Can(w, a) && a.GiveUp? && w.threads[a.thread] == GivingUp(entry, to)
    requires Waits(w.state, entry) && (to == Cancelled || to == Expired)
    ensures entry in Act(w, a).state.tables.entries && Act(w, a).state.tables.entries[entry].state == to
  {
  }

  /** Giving up resolves the entry, if nobody else has, the way its reason says. */
  lemma GivingUpResolves(now: Instant, run: seq<Action>, i: nat, g: nat, t: nat, entry: string, noWait: bool)
    requires Possible(Beginning(now), run) && StartedAt(run, i, t, entry, noWait)
    requires i < g < |run| && run[g].GiveUp? && run[g].thread == t && Waits(At(now, run, g).state, entry)
    ensures Possible(Beginning(now), run[..g]) && entry in At(now, run, g + 1).state.tables.entries
    ensures var state := At(now, run, g + 1).state.tables.entries[entry].state;
      && (state == Expired || state == Cancelled)
      && HasReason(now, run[..g], t, entry, noWait, state)
  {
    PrefixIsPossible(Beginning(now), run, g);
    assert StartedAt(run[..g], i, t, entry, noWait);
    ThreadFollowsStart(now, run[..g], i, t, entry, noWait);
    GivesUpForAReason(now, run[..g], i, t, entry, noWait);
    GiveUpResolvesEntry(At(now, run, g), run[g], entry, At(now, run, g).threads[t].to);
  }

  // ----- without waiting -----

  /** The thread withdraws its entry or has done so. */
  ghost predicate Withdrawing(th: Thread, entry: string) {
    || th == GivingUp(entry, Expired)
    || (th.Announcing? && th.result == Refused(entry))
    || th == Returned(Refused(entry))
  }

  lemma StepWithdraws(w: World, a: Action, t: nat, entry: string)
    requires Can(w, a) && t in w.threads && Withdrawing(w.threads[t], entry)
    ensures t in Act(w, a).threads && Withdrawing(Act(w, a).threads[t], entry)
  {
  }

  /** Once its look is answered without a slot an acquisition that does not wait is over, but for withdrawing its entry. */
  lemma {:induction false} AfterAnsweredNo(now: Instant, run: seq<Action>, i: nat, j: nat, t: nat, entry: string)
    requires Possible(Beginning(now), run) && StartedAt(run, i, t, entry, true)
    requires i < j && AnsweredNo(now, run, j, t, entry)
    ensures t in After(Beginning(now), run).threads && Withdrawing(After(Beginning(now), run).threads[t], entry)
  {
    var before := run[..|run| - 1];
    assert forall k :: 0 <= k <= |before| ==> before[..k] == run[..k];
    if j == |before| {
      assert run[..j + 1] == run;
      LookDecides(now, run, i, j, t, entry, true);
    } else {
      assert AnsweredNo(now, before, j, t, entry);
      AfterAnsweredNo(now, before, i, j, t, entry);
      StepWithdraws(After(Beginning(now), before), run[|run| - 1], t, entry);
    }
  }

  lemma PrefixAt(now: Instant, run: seq<Action>, j: nat, g: nat)
    requires Possible(Beginning(now), run) && j <= g <= |run|
    ensures Possible(Beginning(now), run[..g]) && At(now, run[..g], j) == At(now, run, j)
  {
    PrefixIsPossible(Beginning(now), run, g);
    PrefixIsPossible(Beginning(now), run, j);
    var prefix := run[..g];
    assert prefix[..j] == run[..j];
  }

  lemma PrefixAnsweredNo(now: Instant, run: seq<Action>, j: nat, g: nat, t: nat, entry: string)
    requires Possible(Beginning(now), run) && j < g <= |run| && AnsweredNo(now, run, j, t, entry)
    ensures Possible(Beginning(now), run[..g]) && AnsweredNo(now, run[..g], j, t, entry)
  {
    PrefixAt(now, run, j, g);
    assert run[..g][j] == run[j];
  }

  /** So its entry expires, unless somebody else resolved it first. */
  lemma NoWaitExpires(now: Instant, run: seq<Action>, i: nat, j: nat, g: nat, t: nat, entry: string)
    requires Possible(Beginning(now), run) && StartedAt(run, i, t, entry, true)
    requires i < j < g < |run| && AnsweredNo(now, run, j, t, entry)
    requires run[g].GiveUp? && run[g].thread == t && Waits(At(now, run, g).state, entry)
    ensures entry in At(now, run, g + 1).state.tables.entries
    ensures At(now, run, g + 1).state.tables.entries[entry].state == Expired
  {
    PrefixIsPossible(Beginning(now), run, g);
    PrefixAnsweredNo(now, run, j, g, t, entry);
    assert StartedAt(run[..g], i, t, entry, true);
    AfterAnsweredNo(now, run[..g], i, j, t, entry);
    GiveUpResolvesEntry(At(now, run, g), run[g], entry, Expired);
  }

  // ----- expired entries -----

  lemma StepStarts(w: World, a: Action, t: nat)
    requires Can(w, a) && t in Act(w, a).threads && Live(Act(w, a).threads[t])
    ensures a.Start? && a.thread == t ==> Act(w, a).threads[t] == Watching(a.entry, a.noWait)
    ensures !(a.Start? && a.thread == t) ==>
      t in w.threads && Live(w.threads[t]) && w.threads[t].entry == Act(w, a).threads[t].entry
  {
  }

  lemma {:induction false} EveryAcquisitionStarted(now: Instant, run: seq<Action>, t: nat) returns (i: nat, noWait: bool)
    requires Possible(Beginning(now), run)
    requires t in After(Beginning(now), run).threads && Live(After(Beginning(now), run).threads[t])
    ensures StartedAt(run, i, t, After(Beginning(now), run).threads[t].entry, noWait)
  {
    var before, last := run[..|run| - 1], run[|run| - 1];
    assert run == before + [last];
    StepStarts(After(Beginning(now), before), last, t);
    if last.Start? && last.thread == t {
      return |before|, last.noWait;
    }
    i, noWait := EveryAcquisitionStarted(now, before, t);
  }

  lemma AbandoningAloneExpires(s: State, op: Op, entry: string)
    requires Enabled(s, op) && entry in Step(s, op).tables.entries
    requires Step(s, op).tables.entries[entry].state == Expired
    requires !(entry in s.tables.entries && s.tables.entries[entry].state == Expired)
    ensures op.Abandon? && op.id == entry && op.outcome == Expired
  {
  }

  /** Only a thread's own giving up makes an entry expire. */
  lemma OnlyGivingUpExpires(w: World, a: Action, entry: string)
    requires Can(w, a) && entry in Act(w, a).state.tables.entries
    requires Act(w, a).state.tables.entries[entry].state == Expired
    requires !(entry in w.state.tables.entries && w.state.tables.entries[entry].state == Expired)
    ensures a.GiveUp? && w.threads[a.thread] == GivingUp(entry, Expired)
  {
    if a.Start? || a.Look? || a.GiveUp? || a.Commit? || a.Elapse? {
      AbandoningAloneExpires(w.state, OpOf(w, a), entry);
    }
  }

  /** An acquisition of this entry did not wait and was told there was no slot. */
  ghost predicate WasToldNo(now: Instant, run: seq<Action>, entry: string)
    requires Possible(Beginning(now), run)
  {
    exists i, j, t :: StartedAt(run, i, t, entry, true) && AnsweredNo(now, run, j, t, entry)
  }

  /** In every run an entry has expired only if its acquisition did not wait and was told there was no slot. */
  lemma {:induction false} ExpiredWasToldNo(now: Instant, run: seq<Action>, entry: string)
    requires Possible(Beginning(now), run)
    requires entry in After(Beginning(now), run).state.tables.entries
    requires After(Beginning(now), run).state.tables.entries[entry].state == Expired
    ensures WasToldNo(now, run, entry)
  {
    var before, last := run[..|run| - 1], run[|run| - 1];
    var w := After(Beginning(now), before);
    if entry in w.state.tables.entries && w.state.tables.entries[entry].state == Expired {
      ExpiredWasToldNo(now, before, entry);
      ToldNoStays(now, run, entry);
    } else {
      OnlyGivingUpExpires(w, last, entry);
      var i, noWait := EveryAcquisitionStarted(now, before, last.thread);
      GivesUpForAReason(now, before, i, last.thread, entry, noWait);
      var j :| AnsweredNo(now, before, j, last.thread, entry);
      ToldNoStays(now, run, entry);
    }
  }

  lemma ToldNoStays(now: Instant, run: seq<Action>, entry: string)
    requires run != [] && Possible(Beginning(now), run) && WasToldNo(now, run[..|run| - 1], entry)
    ensures WasToldNo(now, run, entry)
  {
    var before := run[..|run| - 1];
    assert forall k :: 0 <= k <= |before| ==> before[..k] == run[..k];
    var i, j, t :| StartedAt(before, i, t, entry, true) && AnsweredNo(now, before, j, t, entry);
    assert StartedAt(run, i, t, entry, true) && AnsweredNo(now, run, j, t, entry);
  }

  // ----- no needless waking -----

  /** Something about this resource is different: its definition, its queue or its leases. */
  ghost predicate Touched(t: Tables, t': Tables, resource: string) {
    || (resource in t'.resources && !(resource in t.resources && t'.resources[resource] == t.resources[resource]))
    || (exists e :: e in t'.entries && t'.entries[e].resource == resource && !(e in t.entries && t'.entries[e] == t.entries[e]))
    || (exists l :: l in t'.leases && t'.leases[l].resource == resource && !(l in t.leases && t'.leases[l] == t.leases[l]))
  }

  /**
   Everyone is woken only after clearing out an agent or reaping something. Otherwise a commit wakes the
   waiters of one resource, and of no other than those it touched: a definition or a remedy of its own, a
   release of its lease, or a change in its queue.
   */
  lemma WakesOnlyWhatItIsAbout(s: State, op: Op)
    requires Enabled(s, op) && Announcement(s, op).Some?
    ensures match Announcement(s, op).value
      case All => op.ReleaseHeldBy? || (op.ReapExpired? && op.rows != [])
      case One(r) =>
        || (op.Define? && op.name == r)
        || ((op.FreeResource? || op.ClearQueue?) && op.resource == r)
        || (op.Release? && op.leaseId in s.tables.leases && s.tables.leases[op.leaseId].resource == r)
        || Touched(s.tables, Step(s, op).tables, r)
  {
    if op.TryGrant? || op.Cancel? || op.Abandon? {
      assert op.id in Step(s, op).tables.entries
          && Step(s, op).tables.entries[op.id] != s.tables.entries[op.id];
    }
  }
}
