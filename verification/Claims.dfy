/**
 What the daemon itself guarantees about claims, whatever its callers do. A claim's lease is verified
 once; after that the call tries to take a task, possibly many times, without looking at the lease again.
 */
module Claims {
  import opened Core
  import Ordering
  import opened LeaseTables
  import Leasing = LeasingRuns
  import opened Tasks
  import opened DispatchService

  /** A claiming call whose lease has been verified and which has taken nothing yet. */
  datatype Call = Call(resource: string, worker: string, lease: string)

  datatype Daemon = Daemon(state: Leasing.State, tasks: Table, calls: map<nat, Call>)

  datatype Action =
    | OnLeases(op: Leasing.Op)                                       // anything that happens to leases, time included
    | OnTasks(write: Tasks.Op)                                       // any write to a task except a claim
    | Verify(call: nat, resource: string, worker: string, lease: string)
    | Take(call: nat, configured: bool)
    | GiveUp(call: nat)

  ghost predicate Can(d: Daemon, a: Action) {
    match a
    case OnLeases(op) => Leasing.Enabled(d.state, op)
    case OnTasks(write) => !write.TryClaim?
    case Verify(call, _, _, _) => call !in d.calls
    case Take(call, _) => call in d.calls
    case GiveUp(call) => call in d.calls
  }

  ghost function Act(d: Daemon, a: Action): Daemon
    requires Can(d, a)
  {
    match a
    case OnLeases(op) => d.(state := Leasing.Step(d.state, op))
    case OnTasks(write) => d.(tasks := Tasks.Step(d.tasks, write))
    case Verify(call, resource, worker, lease) =>
      if LeaseVerified(d.state.tables, resource, worker, lease, d.state.now).Ok?
      then d.(calls := d.calls[call := Call(resource, worker, lease)]) else d
    case Take(call, configured) =>
      var c := d.calls[call];
      var (tasks, claimed) := TryClaimed(d.tasks, c.resource, c.worker, c.lease, configured, d.state.now);
      d.(tasks := tasks, calls := if claimed.Some? then d.calls - {call} else d.calls)
    case GiveUp(call) => d.(calls := d.calls - {call})
  }

  ghost predicate Possible(now: Instant, run: seq<Action>)
    decreases |run|, 0
  {
    run == [] || (Possible(now, run[..|run| - 1]) && Can(After(now, run[..|run| - 1]), run[|run| - 1]))
  }

  ghost function After(now: Instant, run: seq<Action>): Daemon
    requires Possible(now, run)
    decreases |run|, 1
  {
    if run == [] then Daemon(Leasing.State(now, Leasing.EMPTY), map[], map[])
    else Act(After(now, run[..|run| - 1]), run[|run| - 1])
  }

  // ----- what is guaranteed -----

  /** The lease exists, on this resource and for this worker; it may have ended. */
  predicate Fits(t: Tables, resource: string, worker: string, lease: string) {
    lease in t.leases && t.leases[lease].resource == resource && t.leases[lease].agent == worker
  }

  ghost predicate CallFits(d: Daemon, call: nat)
    requires call in d.calls
  {
    Fits(d.state.tables, d.calls[call].resource, d.calls[call].worker, d.calls[call].lease)
  }

  ghost predicate TaskFits(d: Daemon, id: string)
    requires id in d.tasks
  {
    var task := d.tasks[id];
    task.state == TaskRunning ==>
      task.worker.Some? && task.lease.Some? && Fits(d.state.tables, task.resource, task.worker.value, task.lease.value)
  }

  ghost predicate Sound(d: Daemon) {
    (forall call <- d.calls :: CallFits(d, call)) && forall id <- d.tasks :: TaskFits(d, id)
  }

  lemma LeaseStepKeepsSound(d: Daemon, op: Leasing.Op)
    requires Sound(d) && Leasing.Enabled(d.state, op)
    ensures Sound(Act(d, OnLeases(op)))
  {
    var d' := Act(d, OnLeases(op));
    Leasing.StepKeepsLeases(d.state, op);
    forall call <- d'.calls ensures CallFits(d', call) {
      assert CallFits(d, call);
    }
    forall id <- d'.tasks ensures TaskFits(d', id) {
      assert TaskFits(d, id);
    }
  }

  /** No write but a claim makes a task run, or gives a running one another lease. */
  lemma WriteKeepsRunning(t: Table, write: Tasks.Op, id: string)
    requires !write.TryClaim? && id in Tasks.Step(t, write) && Tasks.Step(t, write)[id].state == TaskRunning
    ensures id in t && t[id].state == TaskRunning
    ensures var after := Tasks.Step(t, write)[id];
      (after.resource, after.worker, after.lease) == (t[id].resource, t[id].worker, t[id].lease)
  {
  }

  lemma ClaimKeepsSound(d: Daemon, call: nat, configured: bool)
    requires Sound(d) && call in d.calls
    ensures Sound(Act(d, Take(call, configured)))
  {
    var c, d' := d.calls[call], Act(d, Take(call, configured));
    assert CallFits(d, call);
    forall id <- d'.tasks ensures TaskFits(d', id) {
      assert id in d.tasks && TaskFits(d, id);
    }
    forall other <- d'.calls ensures CallFits(d', other) {
      assert CallFits(d, other);
    }
  }

  /** A verified call is over exactly when it has taken a task, so it takes no second one. */
  lemma CallTakesOneTask(d: Daemon, call: nat, configured: bool)
    requires call in d.calls
    ensures var c, d' := d.calls[call], Act(d, Take(call, configured));
      && d'.calls == (if call in d'.calls then d.calls else d.calls - {call})
      && (call !in d'.calls <==> configured && exists id :: IsNext(d.tasks, c.resource, id))
      && (forall id <- d.tasks :: id in d'.tasks)
      && (call in d'.calls ==> forall id <- d.tasks :: d'.tasks[id].state == TaskRunning ==> d'.tasks[id] == d.tasks[id])
      && (call !in d'.calls ==>
            exists id :: IsNext(d.tasks, c.resource, id) && d'.tasks == d.tasks[id := d'.tasks[id]]
              && d'.tasks[id].state == TaskRunning && d'.tasks[id].lease == Some(c.lease) && d'.tasks[id].worker == Some(c.worker))
  {
  }

  lemma ActKeepsSound(d: Daemon, a: Action)
    requires Sound(d) && Can(d, a)
    ensures Sound(Act(d, a))
  {
    var d' := Act(d, a);
    match a
    case OnLeases(op) => LeaseStepKeepsSound(d, op);
    case Take(call, configured) => ClaimKeepsSound(d, call, configured);
    case OnTasks(write) =>
      forall id <- d'.tasks ensures TaskFits(d', id) {
        if d'.tasks[id].state == TaskRunning {
          WriteKeepsRunning(d.tasks, write, id);
          assert TaskFits(d, id);
        }
      }
      assert forall call <- d'.calls :: CallFits(d, call);
    case _ =>
      assert forall call <- d.calls :: CallFits(d, call);
      assert forall id <- d.tasks :: TaskFits(d, id);
  }

  lemma {:induction false} RunsAreSound(now: Instant, run: seq<Action>)
    requires Possible(now, run)
    ensures Sound(After(now, run))
  {
    if run != [] {
      RunsAreSound(now, run[..|run| - 1]);
      ActKeepsSound(After(now, run[..|run| - 1]), run[|run| - 1]);
    }
  }

  /** In every run a running task records a lease that its worker was given on its resource, at some time. */
  lemma RunningTasksWereLeased(now: Instant, run: seq<Action>, id: string)
    requires Possible(now, run)
    requires id in After(now, run).tasks && After(now, run).tasks[id].state == TaskRunning
    ensures var d, task := After(now, run), After(now, run).tasks[id];
      && task.worker.Some? && task.lease.Some?
      && Fits(d.state.tables, task.resource, task.worker.value, task.lease.value)
  {
    RunsAreSound(now, run);
    assert TaskFits(After(now, run), id);
  }

  // ----- what is not -----

  /** Every running task has a slot of its own. */
  ghost predicate Covered(d: Daemon) {
    && (forall id <- d.tasks :: d.tasks[id].state == TaskRunning ==>
          d.tasks[id].lease.Some? && d.tasks[id].lease.value in ActiveOn(d.state.tables, d.tasks[id].resource, d.state.now))
    && (forall i <- d.tasks, j <- d.tasks ::
          d.tasks[i].state == TaskRunning && d.tasks[j].state == TaskRunning && d.tasks[i].lease == d.tasks[j].lease ==> i == j)
  }

  lemma CoveredFits(d: Daemon, resource: string)
    requires Covered(d)
    ensures |RunningOn(d.tasks, resource)| <= Leasing.Holding(d.state, resource)
  {
    var slots := map id | id in RunningOn(d.tasks, resource) :: d.tasks[id].lease.value;
    InjectionSize(slots, ActiveOn(d.state.tables, resource, d.state.now));
    assert slots.Keys == RunningOn(d.tasks, resource);
  }

  /**
   A claim that takes a task leaves every running task a slot of its own exactly when its lease is still
   active at that moment and no running task records it: the two things it does not look at again.
   */
  lemma ClaimIsCoveredExactly(now: Instant, run: seq<Action>, call: nat, id: string)
    requires Possible(now, run) && Covered(After(now, run)) && call in After(now, run).calls
    requires IsNext(After(now, run).tasks, After(now, run).calls[call].resource, id)
    ensures var d, c := After(now, run), After(now, run).calls[call];
      Covered(Act(d, Take(call, true))) <==>
        && c.lease in ActiveOn(d.state.tables, c.resource, d.state.now)
        && forall other <- d.tasks :: d.tasks[other].state == TaskRunning ==> d.tasks[other].lease != Some(c.lease)
  {
    var d, c := After(now, run), After(now, run).calls[call];
    RunsAreSound(now, run);
    assert CallFits(d, call);
    var op := Tasks.TryClaim(c.resource, c.worker, c.lease, true, d.state.now);
    OldestIsTaken(d.tasks, op, id);
    ClaimTakesTheOldest(d.tasks, op, id);
    var d' := Act(d, Take(call, true));
    assert d'.tasks[id].state == TaskRunning && d'.tasks[id].lease == Some(c.lease);
    assert forall other <- d.tasks :: other != id ==> d'.tasks[other] == d.tasks[other];
  }

  // ----- two runs -----

  lemma Extend(now: Instant, run: seq<Action>, a: Action)
    requires Possible(now, run) && Can(After(now, run), a)
    ensures Possible(now, run + [a]) && After(now, run + [a]) == Act(After(now, run), a)
  {
    assert (run + [a])[..|run|] == run;
  }

  function Fresh(): Task {
    Task("test", "unit", "me", None, None, TaskQueued, None, "", "", 0, None, None)
  }

  function Taken(at: Instant): Task {
    Fresh().(state := TaskRunning, worker := Some("worker"), lease := Some("l"), startedAt := Some(at))
  }

  const SLOT := Lease("test", "worker", "e", 0, 1000, None)

  const DEFINE := Leasing.Define("op", "test", 1, 1_000_000, 1)
  const ENQUEUE := Leasing.Enqueue("e", "worker", "test", 0, 0)
  const GRANT := Leasing.TryGrant("e", "l")

  lemma Defines(s: Leasing.State)
    requires s == Leasing.State(0, Leasing.EMPTY)
    ensures Leasing.Enabled(s, DEFINE)
    ensures var t := Leasing.Step(s, DEFINE).tables;
      t.resources == map["test" := Resource(1, 1000)] && t.entries == map[] && t.leases == map[]
    ensures Leasing.Step(s, DEFINE).now == 0
  {
    assert ValidName("test");
  }

  lemma Enqueues(s: Leasing.State)
    requires s.now == 0 && s.tables.resources == map["test" := Resource(1, 1000)]
    requires s.tables.entries == map[] && s.tables.leases == map[]
    ensures Leasing.Enabled(s, ENQUEUE)
    ensures var t := Leasing.Step(s, ENQUEUE).tables;
      && t.resources == s.tables.resources && t.leases == map[]
      && t.entries == map["e" := QueueEntry("test", "worker", 0, Waiting, 0, None)]
    ensures Leasing.Step(s, ENQUEUE).now == 0
  {
    assert ValidName("test");
  }

  lemma Grants(s: Leasing.State)
    requires s.now == 0 && s.tables.resources == map["test" := Resource(1, 1000)]
    requires s.tables.entries == map["e" := QueueEntry("test", "worker", 0, Waiting, 0, None)] && s.tables.leases == map[]
    ensures Leasing.Enabled(s, GRANT)
    ensures var t := Leasing.Step(s, GRANT).tables;
      t.resources == s.tables.resources && t.leases == map["l" := SLOT]
    ensures Leasing.Step(s, GRANT).now == 0
  {
    assert ActiveOn(s.tables, "test", 0) == {};
    assert IsHead(s.tables, "test", "e");
  }

  /** A resource with one slot, which a worker holds. */
  lemma OneSlot() returns (run: seq<Action>)
    ensures Possible(0, run)
    ensures var d := After(0, run);
      && d.state.now == 0 && d.state.tables.resources == map["test" := Resource(1, 1000)]
      && d.state.tables.leases == map["l" := SLOT] && d.tasks == map[] && d.calls == map[]
  {
    run := [];
    Defines(After(0, run).state);
    Extend(0, run, OnLeases(DEFINE));
    run := run + [OnLeases(DEFINE)];
    Enqueues(After(0, run).state);
    Extend(0, run, OnLeases(ENQUEUE));
    run := run + [OnLeases(ENQUEUE)];
    Grants(After(0, run).state);
    Extend(0, run, OnLeases(GRANT));
    run := run + [OnLeases(GRANT)];
  }

  function Submission(id: string): Tasks.Op {
    Submit(id, "test", "unit", "me", 0)
  }

  lemma Submits(d: Daemon, id: string)
    requires id != "" && id !in d.tasks
    ensures Act(d, OnTasks(Submission(id))) == d.(tasks := d.tasks[id := Fresh()])
  {
    assert ValidName("test") && ValidName("unit");
  }

  /** And two tasks queued on it. */
  lemma TwoQueued() returns (run: seq<Action>)
    ensures Possible(0, run)
    ensures var d := After(0, run);
      && d.state.now == 0 && d.state.tables.resources == map["test" := Resource(1, 1000)]
      && d.state.tables.leases == map["l" := SLOT] && d.tasks == map["a" := Fresh(), "b" := Fresh()] && d.calls == map[]
  {
    run := OneSlot();
    Submits(After(0, run), "a");
    Extend(0, run, OnTasks(Submission("a")));
    run := run + [OnTasks(Submission("a"))];
    Submits(After(0, run), "b");
    Extend(0, run, OnTasks(Submission("b")));
    run := run + [OnTasks(Submission("b"))];
  }

  /** While the lease is active its verification succeeds, and a call begins. */
  lemma Verifies(now: Instant, run: seq<Action>, call: nat) returns (more: seq<Action>)
    requires Possible(now, run) && call !in After(now, run).calls
    requires After(now, run).state.tables.leases == map["l" := SLOT] && After(now, run).state.now < 1000
    ensures more == run + [Verify(call, "test", "worker", "l")] && Possible(now, more)
    ensures After(now, more) == After(now, run).(calls := After(now, run).calls[call := Call("test", "worker", "l")])
  {
    Extend(now, run, Verify(call, "test", "worker", "l"));
    more := run + [Verify(call, "test", "worker", "l")];
  }

  lemma Takes(now: Instant, run: seq<Action>, call: nat, id: string) returns (more: seq<Action>)
    requires Possible(now, run) && call in After(now, run).calls
    requires After(now, run).calls[call] == Call("test", "worker", "l")
    requires IsNext(After(now, run).tasks, "test", id) && After(now, run).tasks[id] == Fresh()
    ensures more == run + [Take(call, true)] && Possible(now, more)
    ensures var d := After(now, run);
      After(now, more) == d.(tasks := d.tasks[id := Taken(d.state.now)], calls := d.calls - {call})
  {
    var d := After(now, run);
    var op := Tasks.TryClaim("test", "worker", "l", true, d.state.now);
    OldestIsTaken(d.tasks, op, id);
    ClaimTakesTheOldest(d.tasks, op, id);
    Extend(now, run, Take(call, true));
    more := run + [Take(call, true)];
  }

  lemma OldestOfTwo(t: Table)
    requires t == map["a" := Fresh(), "b" := Fresh()]
    ensures IsNext(t, "test", "a")
  {
    assert Ordering.KeyLess(TaskKey("a", Fresh()), TaskKey("b", Fresh()));
  }

  /**
   The daemon alone does not bound running tasks by slots: on a resource of capacity one, one active lease,
   verified before each of two claims, ends up backing two running tasks.
   */
  lemma OneLeaseCanBackTwoClaims() returns (run: seq<Action>)
    ensures Possible(0, run)
    ensures var d := After(0, run);
      && Leasing.Capacity(d.state, "test") == Leasing.Holding(d.state, "test") == 1
      && |RunningOn(d.tasks, "test")| == 2 > Leasing.Holding(d.state, "test")
      && LeaseVerified(d.state.tables, "test", "worker", "l", d.state.now).Ok?
  {
    run := TwoQueued();
    run := Verifies(0, run, 1);
    OldestOfTwo(After(0, run).tasks);
    run := Takes(0, run, 1, "a");
    run := Verifies(0, run, 2);
    assert IsNext(After(0, run).tasks, "test", "b");
    run := Takes(0, run, 2, "b");
    var d := After(0, run);
    assert RunningOn(d.tasks, "test") == {"a", "b"};
    assert ActiveOn(d.state.tables, "test", d.state.now) == {"l"};
  }

  /** Nor does one lease each: a lease may lapse between its verification and the claim. */
  lemma LapsedLeaseCanBackAClaim() returns (run: seq<Action>)
    ensures Possible(0, run)
    ensures var d := After(0, run);
      Leasing.Holding(d.state, "test") == 0 && |RunningOn(d.tasks, "test")| == 1
  {
    run := TwoQueued();
    run := Verifies(0, run, 1);
    var lapse := OnLeases(Leasing.Pass(1000));
    Extend(0, run, lapse);
    run := run + [lapse];
    OldestOfTwo(After(0, run).tasks);
    run := Takes(0, run, 1, "a");
    var d := After(0, run);
    assert RunningOn(d.tasks, "test") == {"a"};
    assert ActiveOn(d.state.tables, "test", d.state.now) == {};
  }
}
