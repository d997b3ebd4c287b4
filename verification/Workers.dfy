/**
 Shared workers on top of the lease queue. A worker waits for work, takes a slot, has its lease
 checked, claims one task, reports on it and gives the slot back, in that order.
 */
module Workers {
  import opened Core
  import opened Ordering
  import opened LeaseTables
  import Leasing = LeasingRuns
  import LeasingInvariants
  import opened Tasks
  import opened DispatchService

  datatype Stage =
    | Seeking                              // waiting for work, holding nothing
    | Queueing(entry: string)              // waiting for a slot
    | Holding(lease: string)
    | Checked(lease: string)               // the daemon has verified the lease, the claim is still to come
    | Working(lease: string, task: string)
    | Leaving(lease: string)               // about to give the slot back

  datatype Worker = Worker(agent: string, resource: string, stage: Stage)

  datatype Site = Site(state: Leasing.State, tasks: Table, workers: map<nat, Worker>)

  datatype Action =
    | Hire(worker: nat, agent: string, resource: string)
    | Join(worker: nat, entry: string, requestedAt: Instant)
    | Take(worker: nat, lease: string)
    | Withdraw(worker: nat)                                       // the acquire failed
    | Verify(worker: nat)
    | Claim(worker: nat, configured: bool)
    | Complete(worker: nat, exitCode: int, failure: string)
    | GiveBack(worker: nat)
    | OnLeases(op: Leasing.Op)                                    // anything else that happens to leases, time included
    | OnTasks(write: Tasks.Op)                                    // any other write to a task, except a claim

  predicate HasLease(stage: Stage) {
    stage.Holding? || stage.Checked? || stage.Working? || stage.Leaving?
  }

  /** The worker relies on its lease from the check until its report. */
  predicate Relies(stage: Stage) {
    stage.Checked? || stage.Working?
  }

  predicate At(site: Site, worker: nat, stage: Stage) {
    worker in site.workers && site.workers[worker].stage == stage
  }

  ghost function LeaseOp(site: Site, a: Action): Option<Leasing.Op>
    requires a.Join? || a.Take? || a.GiveBack? ==> a.worker in site.workers
    requires a.Take? ==> site.workers[a.worker].stage.Queueing?
    requires a.GiveBack? ==> site.workers[a.worker].stage.Leaving?
  {
    match a
    case Join(worker, entry, requestedAt) =>
      Some(Leasing.Enqueue(entry, site.workers[worker].agent, site.workers[worker].resource, 0, requestedAt))
    case Take(worker, lease) => Some(Leasing.TryGrant(site.workers[worker].stage.entry, lease))
    case GiveBack(worker) => Some(Leasing.Release(site.workers[worker].agent, site.workers[worker].stage.lease, false))
    case OnLeases(op) => Some(op)
    case _ => None
  }

  ghost predicate Allowed(site: Site, a: Action) {
    match a
    case Hire(worker, _, _) => worker !in site.workers
    case Join(worker, _, _) =>
      && worker in site.workers && site.workers[worker].stage.Seeking?
      && Leasing.Enabled(site.state, LeaseOp(site, a).value) && Leasing.Transaction(site.state, LeaseOp(site, a).value).Ok?
    case Take(worker, _) =>
      && worker in site.workers && site.workers[worker].stage.Queueing?
      && Leasing.Grants(site.state, LeaseOp(site, a).value)
    case Withdraw(worker) => worker in site.workers && site.workers[worker].stage.Queueing?
    case Verify(worker) => worker in site.workers && site.workers[worker].stage.Holding?
    case Claim(worker, _) => worker in site.workers && site.workers[worker].stage.Checked?
    case Complete(worker, _, _) => worker in site.workers && site.workers[worker].stage.Working?
    case GiveBack(worker) => worker in site.workers && site.workers[worker].stage.Leaving?
    case OnLeases(op) => Leasing.Enabled(site.state, op)
    case OnTasks(write) => !write.TryClaim?
  }

  ghost function Moved(site: Site, worker: nat, stage: Stage): Site
    requires worker in site.workers
  {
    site.(workers := site.workers[worker := site.workers[worker].(stage := stage)])
  }

  ghost function Act(site: Site, a: Action): Site
    requires Allowed(site, a)
  {
    match a
    case Hire(worker, agent, resource) => site.(workers := site.workers[worker := Worker(agent, resource, Seeking)])
    case Join(worker, entry, _) =>
      Moved(site.(state := Leasing.Step(site.state, LeaseOp(site, a).value)), worker, Queueing(entry))
    case Take(worker, lease) =>
      Moved(site.(state := Leasing.Step(site.state, LeaseOp(site, a).value)), worker, Holding(lease))
    case Withdraw(worker) => Moved(site, worker, Seeking)
    case Verify(worker) =>
      var w := site.workers[worker];
      if LeaseVerified(site.state.tables, w.resource, w.agent, w.stage.lease, site.state.now).Ok?
      then Moved(site, worker, Checked(w.stage.lease)) else Moved(site, worker, Leaving(w.stage.lease))
    case Claim(worker, configured) =>
      var w := site.workers[worker];
      var (tasks, claimed) := TryClaimed(site.tasks, w.resource, w.agent, w.stage.lease, configured, site.state.now);
      (match claimed
       case Some(task) => Moved(site.(tasks := tasks), worker, Working(w.stage.lease, task))
       case None => Moved(site.(tasks := tasks), worker, Leaving(w.stage.lease)))
    case Complete(worker, exitCode, failure) =>
      var w := site.workers[worker];
      var task := w.stage.task;
      var accepted := task in site.tasks && site.tasks[task].worker == Some(w.agent);
      var tasks := if accepted then Tasks.Step(site.tasks, Report(task, exitCode, failure, site.state.now)) else site.tasks;
      Moved(site.(tasks := tasks), worker, Leaving(w.stage.lease))
    case GiveBack(worker) =>
      Moved(site.(state := Leasing.Step(site.state, LeaseOp(site, a).value)), worker, Seeking)
    case OnLeases(op) => site.(state := Leasing.Step(site.state, op))
    case OnTasks(write) => site.(tasks := Tasks.Step(site.tasks, write))
  }

  /** The hypothesis: nothing ends a lease between its check and its worker's report. */
  ghost predicate Undisturbed(site: Site, a: Action)
    requires Allowed(site, a)
  {
    a.OnLeases? ==>
      forall w <- site.workers :: Relies(site.workers[w].stage) ==>
        var lease := site.workers[w].stage.lease;
        lease in site.state.tables.leases && site.state.tables.leases[lease].Active(site.state.now) ==>
          && lease in Act(site, a).state.tables.leases
          && Act(site, a).state.tables.leases[lease].Active(Act(site, a).state.now)
  }

  ghost predicate Possible(now: Instant, run: seq<Action>)
    decreases |run|, 0
  {
    run == [] ||
    var before := run[..|run| - 1];
    && Possible(now, before) && Allowed(After(now, before), run[|run| - 1])
    && Undisturbed(After(now, before), run[|run| - 1])
  }

  ghost function After(now: Instant, run: seq<Action>): Site
    requires Possible(now, run)
    decreases |run|, 1
  {
    if run == [] then Site(Leasing.State(now, Leasing.EMPTY), map[], map[])
    else Act(After(now, run[..|run| - 1]), run[|run| - 1])
  }

  // ----- the invariant -----

  ghost predicate Entitled(site: Site, w: nat)
    requires w in site.workers
  {
    var worker := site.workers[w];
    var t := site.state.tables;
    && (worker.stage.Queueing? ==>
          && worker.stage.entry in t.entries
          && t.entries[worker.stage.entry].agent == worker.agent
          && t.entries[worker.stage.entry].resource == worker.resource)
    && (HasLease(worker.stage) ==>
          && worker.stage.lease in t.leases
          && t.leases[worker.stage.lease].agent == worker.agent
          && t.leases[worker.stage.lease].resource == worker.resource)
    && (Relies(worker.stage) ==> t.leases[worker.stage.lease].Active(site.state.now))
  }

  /** This worker is running this task on the lease the task records. */
  predicate Runs(site: Site, w: nat, task: string)
    requires task in site.tasks
  {
    && w in site.workers
    && site.workers[w].stage.Working? && site.workers[w].stage.task == task
    && site.tasks[task].lease == Some(site.workers[w].stage.lease)
    && site.tasks[task].worker == Some(site.workers[w].agent)
    && site.tasks[task].resource == site.workers[w].resource
  }

  ghost predicate Backed(site: Site, task: string)
    requires task in site.tasks
  {
    exists w :: Runs(site, w, task)
  }

  ghost predicate OwnLeases(workers: map<nat, Worker>) {
    forall v <- workers, w <- workers ::
      v != w && HasLease(workers[v].stage) && HasLease(workers[w].stage) ==>
        workers[v].stage.lease != workers[w].stage.lease
  }

  ghost predicate Sound(site: Site) {
    && (forall w <- site.workers :: Entitled(site, w))
    && OwnLeases(site.workers)
    && (forall task <- site.tasks :: site.tasks[task].state == TaskRunning ==> Backed(site, task))
  }

  /** Workers other than the one that moved still back what they backed. */
  lemma StillBacked(site: Site, site': Site, moved: nat, task: string, w: nat)
    requires task in site.tasks && task in site'.tasks && Runs(site, w, task) && w != moved
    requires site'.tasks[task] == site.tasks[task]
    requires w in site'.workers && site'.workers[w] == site.workers[w]
    ensures Backed(site', task)
  {
    assert Runs(site', w, task);
  }

  /** A step on the leases that respects the hypothesis keeps every worker entitled. */
  lemma LeaseStepKeepsSound(site: Site, a: Action)
    requires Sound(site) && Allowed(site, a) && a.OnLeases? && Undisturbed(site, a)
    ensures Sound(Act(site, a))
  {
    var site' := Act(site, a);
    Leasing.StepKeepsLeases(site.state, a.op);
    Leasing.StepKeepsEntries(site.state, a.op);
    forall w <- site'.workers ensures Entitled(site', w) {
      assert Entitled(site, w);
    }
    forall task <- site'.tasks | site'.tasks[task].state == TaskRunning ensures Backed(site', task) {
      var w :| Runs(site, w, task);
      assert Runs(site', w, task);
    }
  }

  /** A write to a task leaves it as it was, or not running, or running as before with more output. */
  lemma TaskStepKeepsSound(site: Site, a: Action)
    requires Sound(site) && Allowed(site, a) && a.OnTasks?
    ensures Sound(Act(site, a))
  {
    var site' := Act(site, a);
    forall w <- site'.workers ensures Entitled(site', w) {
      assert Entitled(site, w);
    }
    forall task <- site'.tasks | site'.tasks[task].state == TaskRunning ensures Backed(site', task) {
      assert task in site.tasks && site.tasks[task].state == TaskRunning;
      var w :| Runs(site, w, task);
      assert Runs(site', w, task);
    }
  }

  /** A worker's own move that touches neither leases nor tasks. */
  lemma PlainMoveKeepsSound(site: Site, a: Action)
    requires Sound(site) && Allowed(site, a) && (a.Hire? || a.Withdraw? || a.Verify?)
    ensures Sound(Act(site, a))
  {
    var site' := Act(site, a);
    assert a.worker in site.workers ==> Entitled(site, a.worker);
    forall w <- site'.workers ensures Entitled(site', w) {
      assert w in site.workers ==> Entitled(site, w);
    }
    forall task <- site'.tasks | site'.tasks[task].state == TaskRunning ensures Backed(site', task) {
      var w :| Runs(site, w, task);
      StillBacked(site, site', a.worker, task, w);
    }
  }

  /** Rows keep their owners, and every lease but the moving worker's own stays as it was. */
  ghost predicate LeavesOthersAlone(site: Site, site': Site, moved: nat)
    requires moved in site.workers
  {
    var t, t' := site.state.tables, site'.state.tables;
    && site'.tasks == site.tasks && site'.state.now == site.state.now
    && (exists stage :: site' == Moved(site.(state := site'.state), moved, stage))
    && (forall id <- t.leases ::
          id in t'.leases && (!HasLease(site.workers[moved].stage) || id != site.workers[moved].stage.lease ==>
                                t'.leases[id] == t.leases[id]))
    && (forall id <- t.entries ::
          id in t'.entries && (t'.entries[id].agent, t'.entries[id].resource) == (t.entries[id].agent, t.entries[id].resource))
  }

  lemma OthersStayEntitled(site: Site, site': Site, moved: nat)
    requires Sound(site) && moved in site.workers && LeavesOthersAlone(site, site', moved)
    requires !site.workers[moved].stage.Working?
    ensures forall w <- site'.workers :: w != moved ==> Entitled(site', w)
    ensures forall task <- site'.tasks :: site'.tasks[task].state == TaskRunning ==> Backed(site', task)
  {
    forall w <- site'.workers | w != moved ensures Entitled(site', w) {
      assert Entitled(site, w);
    }
    forall task <- site'.tasks | site'.tasks[task].state == TaskRunning ensures Backed(site', task) {
      var w :| Runs(site, w, task);
      StillBacked(site, site', moved, task, w);
    }
  }

  lemma JoinKeepsSound(site: Site, a: Action)
    requires Sound(site) && Allowed(site, a) && a.Join?
    ensures Sound(Act(site, a))
  {
    OthersStayEntitled(site, Act(site, a), a.worker);
  }

  lemma TakeLeavesOthersAlone(site: Site, a: Action)
    requires Sound(site) && Allowed(site, a) && a.Take?
    ensures LeavesOthersAlone(site, Act(site, a), a.worker)
  {
    var site' := Act(site, a);
    Leasing.StepKeepsEntries(site.state, LeaseOp(site, a).value);
    assert site' == Moved(site.(state := site'.state), a.worker, Holding(a.lease));
  }

  /** The slot a worker takes is a new lease of its own on its resource. */
  lemma TakenLeaseIsItsOwn(site: Site, a: Action)
    requires Sound(site) && Allowed(site, a) && a.Take?
    ensures a.lease !in site.state.tables.leases
    ensures Entitled(Act(site, a), a.worker)
  {
    assert Entitled(site, a.worker);
    Leasing.GrantNeedsRoom(site.state, LeaseOp(site, a).value);
  }

  lemma TakeKeepsSound(site: Site, a: Action)
    requires Sound(site) && Allowed(site, a) && a.Take?
    ensures Sound(Act(site, a))
  {
    var site' := Act(site, a);
    TakenLeaseIsItsOwn(site, a);
    TakeLeavesOthersAlone(site, a);
    OthersStayEntitled(site, site', a.worker);
    assert site'.workers == site.workers[a.worker := site.workers[a.worker].(stage := Holding(a.lease))];
    forall w <- site.workers | HasLease(site.workers[w].stage) ensures site.workers[w].stage.lease != a.lease {
      assert Entitled(site, w);
    }
  }

  lemma GiveBackKeepsSound(site: Site, a: Action)
    requires Sound(site) && Allowed(site, a) && a.GiveBack?
    ensures Sound(Act(site, a))
  {
    var site' := Act(site, a);
    assert site' == Moved(site.(state := site'.state), a.worker, Seeking);
    OthersStayEntitled(site, site', a.worker);
  }

  lemma ClaimKeepsSound(site: Site, a: Action)
    requires Sound(site) && Allowed(site, a) && a.Claim?
    ensures Sound(Act(site, a))
  {
    var site' := Act(site, a);
    assert Entitled(site, a.worker);
    forall w <- site'.workers ensures Entitled(site', w) {
      assert Entitled(site, w);
    }
    forall task <- site'.tasks | site'.tasks[task].state == TaskRunning ensures Backed(site', task) {
      if site'.workers[a.worker].stage == Working(site.workers[a.worker].stage.lease, task) {
        assert Runs(site', a.worker, task);
      } else {
        assert site.tasks[task] == site'.tasks[task];
        var w :| Runs(site, w, task);
        StillBacked(site, site', a.worker, task, w);
      }
    }
  }

  /** After a report the worker's own task no longer runs, unless somebody else has taken it over. */
  lemma CompleteKeepsSound(site: Site, a: Action)
    requires Sound(site) && Allowed(site, a) && a.Complete?
    ensures Sound(Act(site, a))
  {
    var site' := Act(site, a);
    assert Entitled(site, a.worker);
    forall w <- site'.workers ensures Entitled(site', w) {
      assert Entitled(site, w);
    }
    forall task <- site'.tasks | site'.tasks[task].state == TaskRunning ensures Backed(site', task) {
      assert site.tasks[task] == site'.tasks[task];
      var w :| Runs(site, w, task);
      StillBacked(site, site', a.worker, task, w);
    }
  }

  lemma {:induction false} RunsAreSound(now: Instant, run: seq<Action>)
    requires Possible(now, run)
    ensures Sound(After(now, run))
  {
    if run != [] {
      var site := After(now, run[..|run| - 1]);
      var a := run[|run| - 1];
      RunsAreSound(now, run[..|run| - 1]);
      match a
      case OnLeases(_) => LeaseStepKeepsSound(site, a);
      case OnTasks(_) => TaskStepKeepsSound(site, a);
      case Claim(_, _) => ClaimKeepsSound(site, a);
      case Complete(_, _, _) => CompleteKeepsSound(site, a);
      case Join(_, _, _) => JoinKeepsSound(site, a);
      case Take(_, _) => TakeKeepsSound(site, a);
      case GiveBack(_) => GiveBackKeepsSound(site, a);
      case Hire(_, _, _) => PlainMoveKeepsSound(site, a);
      case Withdraw(_) => PlainMoveKeepsSound(site, a);
      case Verify(_) => PlainMoveKeepsSound(site, a);
    }
  }

  // ----- the theorems -----

  /**
   Each running task records a lease on its own resource that is active now and held by the worker
   running it, and no two running tasks record the same lease.
   */
  lemma RunningTasksHoldSlots(now: Instant, run: seq<Action>, task: string, other: string)
    requires Possible(now, run)
    requires task in After(now, run).tasks && After(now, run).tasks[task].state == TaskRunning
    requires other in After(now, run).tasks && After(now, run).tasks[other].state == TaskRunning
    ensures var site := After(now, run);
      && site.tasks[task].lease.Some?
      && (var lease := site.tasks[task].lease.value;
          && lease in ActiveOn(site.state.tables, site.tasks[task].resource, site.state.now)
          && site.tasks[task].worker == Some(site.state.tables.leases[lease].agent))
      && (task != other ==> site.tasks[other].lease != site.tasks[task].lease)
  {
    RunsAreSound(now, run);
    var site := After(now, run);
    assert Backed(site, task) && Backed(site, other);
    var v :| Runs(site, v, task);
    var w :| Runs(site, w, other);
    assert Entitled(site, v) && Entitled(site, w);
  }

  /** Running tasks on a resource never outnumber its active leases. */
  lemma RunningFitsLeases(now: Instant, run: seq<Action>, resource: string)
    requires Possible(now, run)
    ensures |RunningOn(After(now, run).tasks, resource)| <= Leasing.Holding(After(now, run).state, resource)
  {
    var site := After(now, run);
    var running := RunningOn(site.tasks, resource);
    forall x, y | x in running && y in running
      ensures site.tasks[x].lease.Some?
      ensures site.tasks[x].lease.value in ActiveOn(site.state.tables, resource, site.state.now)
      ensures site.tasks[x].lease == site.tasks[y].lease ==> x == y
    {
      RunningTasksHoldSlots(now, run, x, y);
    }
    var slots := map id | id in running :: site.tasks[id].lease.value;
    InjectionSize(slots, ActiveOn(site.state.tables, resource, site.state.now));
    assert slots.Keys == running;
  }

  /** The lease operations a run contains, in order. */
  ghost function LeaseOps(now: Instant, run: seq<Action>): seq<Leasing.Op>
    requires Possible(now, run)
  {
    if run == [] then []
    else
      var before := run[..|run| - 1];
      match LeaseOp(After(now, before), run[|run| - 1])
      case Some(op) => LeaseOps(now, before) + [op]
      case None => LeaseOps(now, before)
  }

  lemma {:induction false} LeaseOpsReplay(now: Instant, run: seq<Action>)
    requires Possible(now, run)
    ensures Leasing.Legal(Leasing.State(now, Leasing.EMPTY), LeaseOps(now, run))
    ensures After(now, run).state == Leasing.Exec(Leasing.State(now, Leasing.EMPTY), LeaseOps(now, run))
  {
    if run != [] {
      LeaseOpsReplay(now, run[..|run| - 1]);
      var ops := LeaseOps(now, run);
      if LeaseOp(After(now, run[..|run| - 1]), run[|run| - 1]).Some? {
        assert ops[..|ops| - 1] == LeaseOps(now, run[..|run| - 1]);
      }
    }
  }

  /** Dispatched work stays inside the same capacity limit as everything else. */
  lemma RunningFitsCapacity(now: Instant, run: seq<Action>, resource: string)
    requires Possible(now, run)
    ensures Leasing.Legal(Leasing.State(now, Leasing.EMPTY), LeaseOps(now, run))
    ensures |RunningOn(After(now, run).tasks, resource)|
            <= Leasing.Max(Leasing.Capacity(After(now, run).state, resource),
                           Leasing.HoldingAtLastDefine(Leasing.State(now, Leasing.EMPTY), LeaseOps(now, run), resource))
  {
    LeaseOpsReplay(now, run);
    RunningFitsLeases(now, run, resource);
    Leasing.CapacityHolds(Leasing.State(now, Leasing.EMPTY), LeaseOps(now, run), resource);
  }

  // ----- nothing leaks -----

  /** A lease a worker took is still its business, or has been released. */
  ghost predicate Minded(site: Site, w: nat, lease: string) {
    && w in site.workers
    && ((HasLease(site.workers[w].stage) && site.workers[w].stage.lease == lease)
        || (lease in site.state.tables.leases && site.state.tables.leases[lease].releasedAt.Some?))
  }

  lemma HolderReleases(s: Leasing.State, agent: string, lease: string)
    requires lease in s.tables.leases && s.tables.leases[lease].agent == agent && agent != ""
    ensures var t' := Leasing.Step(s, Leasing.Release(agent, lease, false)).tables;
      lease in t'.leases && t'.leases[lease].releasedAt.Some?
  {
  }

  /** Whoever has a lease has a name. */
  lemma HolderIsNamed(now: Instant, run: seq<Action>, w: nat)
    requires Possible(now, run) && w in After(now, run).workers && HasLease(After(now, run).workers[w].stage)
    ensures var site := After(now, run);
      var lease := site.workers[w].stage.lease;
      && lease in site.state.tables.leases && site.state.tables.leases[lease].agent == site.workers[w].agent
      && site.workers[w].agent != ""
  {
    RunsAreSound(now, run);
    LeaseOpsReplay(now, run);
    LeasingInvariants.ReachableIsConsistent(now, LeaseOps(now, run));
    assert Entitled(After(now, run), w);
  }

  lemma GivingBackReleases(now: Instant, run: seq<Action>, w: nat)
    requires Possible(now, run) && Allowed(After(now, run), GiveBack(w))
    ensures var site, lease := After(now, run), After(now, run).workers[w].stage.lease;
      var t' := Act(site, GiveBack(w)).state.tables;
      lease in t'.leases && t'.leases[lease].releasedAt.Some?
  {
    HolderIsNamed(now, run, w);
    var site := After(now, run);
    HolderReleases(site.state, site.workers[w].agent, site.workers[w].stage.lease);
  }

  lemma StepMinds(now: Instant, run: seq<Action>, a: Action, w: nat, lease: string)
    requires Possible(now, run) && Allowed(After(now, run), a) && Minded(After(now, run), w, lease)
    ensures Minded(Act(After(now, run), a), w, lease)
  {
    var site := After(now, run);
    if LeaseOp(site, a).Some? {
      Leasing.StepKeepsLeases(site.state, LeaseOp(site, a).value);
    }
    if a.GiveBack? && a.worker == w {
      GivingBackReleases(now, run, w);
    }
  }

  /**
   In every run the lease a worker took is in its hands or released: one that waits for work or for a slot
   occupies none.
   */
  lemma {:induction false} NothingLeaks(now: Instant, run: seq<Action>, j: nat)
    requires Possible(now, run) && j < |run| && run[j].Take?
    ensures Minded(After(now, run), run[j].worker, run[j].lease)
  {
    var before, last := run[..|run| - 1], run[|run| - 1];
    if j < |before| {
      NothingLeaks(now, before, j);
      StepMinds(now, before, last, run[j].worker, run[j].lease);
    }
  }

  /** A worker's report finishes its task as told, unless the task was handed to somebody else or is over. */
  lemma ReportIsForItsOwnTask(site: Site, worker: nat, exitCode: int, failure: string)
    requires Allowed(site, Complete(worker, exitCode, failure))
    ensures var w := site.workers[worker];
      var id := w.stage.task;
      var after := Act(site, Complete(worker, exitCode, failure));
      && after.workers[worker] == w.(stage := Leaving(w.stage.lease))
      && after.state == site.state && after.tasks.Keys == site.tasks.Keys
      && (forall other <- site.tasks :: other != id ==> after.tasks[other] == site.tasks[other])
      && (id in site.tasks ==>
            var task, task' := site.tasks[id], after.tasks[id];
            if task.worker == Some(w.agent) && (task.state == TaskRunning || task.state == TaskQueued)
            then (task'.state == TaskSucceeded <==> exitCode == 0 && failure == "")
              && (task'.state == TaskFailed <==> exitCode != 0 || failure != "")
              && (task'.exitCode, task'.failure, task'.finishedAt) == (Some(exitCode), failure, Some(site.state.now))
            else task' == task)
  {
  }
}
