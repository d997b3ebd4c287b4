/** The dispatch service over a task table changed in place. */
module DispatchService {
  import opened Core
  import opened Ordering
  import opened LeaseTables
  import opened Broadcast
  import opened Tasks

  /** A worker may claim only while it holds an active lease of its own on the resource. */
  function LeaseVerified(t: Tables, resource: string, worker: string, lease: string, now: Instant): Result<()> {
    if lease !in t.leases then Err(NotFound)
    else if t.leases[lease].agent != worker then Err(Unauthorised)
    else if t.leases[lease].resource != resource then Err(InvalidArgument)
    else if !t.leases[lease].Active(now) then Err(Conflict)
    else Ok(())
  }

  /** Verified exactly when the lease is one of the worker's active ones and one of the resource's. */
  lemma VerifiedExactly(t: Tables, resource: string, worker: string, lease: string, now: Instant)
    ensures LeaseVerified(t, resource, worker, lease, now).Ok?
      <==> lease in ActiveOf(t, worker, now) && lease in ActiveOn(t, resource, now)
  {
  }

  class Service {
    var tasks: Table
    const arrivals: Waiters
    const outcomes: Waiters

    constructor ()
      ensures tasks == map[] && fresh(arrivals) && fresh(outcomes) && arrivals != outcomes
      ensures arrivals.View() == outcomes.View() == Board(map[], {}, 0)
    {
      tasks := map[];
      var first := new Waiters();
      var second := new Waiters();
      arrivals, outcomes := first, second;
    }

    /** Queues a task for its command's resource and wakes whoever waits for work there. */
    method Submit(id: string, catalogue: map<string, string>, command: string, requester: string, workdir: Result<()>, at: Instant)
      returns (r: Result<()>)
      modifies this`tasks, arrivals
      ensures command !in catalogue ==> r == Err(NotFound)
      ensures command in catalogue && workdir.Err? ==> r == workdir
      ensures command in catalogue && workdir.Ok? ==>
        Effect(old(tasks), tasks, Created(old(tasks), id, catalogue[command], command, requester, at), r)
      ensures r.Err? ==> tasks == old(tasks)
      ensures arrivals.View() == if r.Ok? then old(arrivals.View()).Signalled(One(catalogue[command])) else old(arrivals.View())
    {
      if command !in catalogue {
        return Err(NotFound);
      }
      if workdir.Err? {
        return workdir;
      }
      r := Create(id, catalogue[command], command, requester, at);
      if r.Ok? {
        arrivals.Signal(catalogue[command]);
      }
    }

    method Create(id: string, resource: string, command: string, requester: string, at: Instant) returns (r: Result<()>)
      modifies this`tasks
      ensures Effect(old(tasks), tasks, Created(old(tasks), id, resource, command, requester, at), r)
    {
      if id == "" || !ValidName(resource) || !ValidName(command) || requester == "" {
        return Err(InvalidArgument);
      }
      if id in tasks {
        return Err(AlreadyExists);
      }
      tasks := tasks[id := Task(resource, command, requester, None, None, TaskQueued, None, "", "", at, None, None)];
      return Ok(());
    }

    method NextQueued(resource: string) returns (r: Option<string>)
      ensures match r
        case Some(id) => IsNext(tasks, resource, id)
        case None => forall id <- tasks :: !IsQueuedOn(tasks, resource, id)
    {
      var keys := set id | id in tasks && IsQueuedOn(tasks, resource, id) :: TaskKey(id, tasks[id]);
      assert forall id <- tasks :: IsQueuedOn(tasks, resource, id) ==> TaskKey(id, tasks[id]) in keys;
      var rows := Order(keys);
      if rows == [] {
        ListingLength(rows, keys);
        return None;
      }
      ListingHead(rows, keys);
      assert rows[0] in keys;
      r := Some(rows[0].id);
      forall other <- tasks | IsQueuedOn(tasks, resource, other) && other != r.value
        ensures KeyLess(TaskKey(r.value, tasks[r.value]), TaskKey(other, tasks[other]))
      {
        assert TaskKey(other, tasks[other]) in keys;
      }
    }

    method Claim(id: string, worker: string, lease: string, at: Instant) returns (r: Result<()>)
      modifies this
      ensures Effect(old(tasks), tasks, Claimed(old(tasks), id, worker, lease, at), r)
    {
      if id !in tasks || tasks[id].state != TaskQueued {
        return Err(Conflict);
      }
      tasks := tasks[id := tasks[id].(state := TaskRunning, worker := Some(worker), lease := Some(lease), startedAt := Some(at))];
      return Ok(());
    }

    method Finish(id: string, state: TaskState, exitCode: int, failure: string, at: Instant) returns (r: Result<()>)
      modifies this`tasks
      ensures Effect(old(tasks), tasks, Concluded(old(tasks), id, state, exitCode, failure, at), r)
    {
      if !state.Finished() {
        return Err(InvalidArgument);
      }
      if id !in tasks || (tasks[id].state != TaskRunning && tasks[id].state != TaskQueued) {
        return Err(Conflict);
      }
      tasks := tasks[id := tasks[id].(state := state, exitCode := Some(exitCode), failure := failure, finishedAt := Some(at))];
      return Ok(());
    }

    /** One transaction: read the head of the queue, then claim it or fail it if its command has vanished. */
    method TryClaim(resource: string, worker: string, lease: string, catalogue: set<string>, at: Instant)
      returns (claimed: Option<string>, ghost configured: bool)
      modifies this
      ensures (tasks, claimed) == TryClaimed(old(tasks), resource, worker, lease, configured, at)
      ensures forall id :: IsNext(old(tasks), resource, id) ==> (configured <==> old(tasks)[id].command in catalogue)
    {
      configured := true;
      var next := NextQueued(resource);
      match next
      case None =>
        return None, configured;
      case Some(id) =>
        forall other | IsNext(tasks, resource, other) ensures other == id {
          NextIsUnique(tasks, resource, other, id);
        }
        if tasks[id].command !in catalogue {
          configured := false;
          var finished := Finish(id, TaskFailed, -1, VANISHED, at);
          return None, configured;
        }
        var taken := Claim(id, worker, lease, at);
        return Some(id), configured;
    }

    /** Keeps what a running task printed, and wakes whoever waits for the task. */
    method AppendOutput(id: string, worker: string, chunk: string) returns (r: Result<()>)
      modifies this`tasks, outcomes
      ensures outcomes.View() == if r.Ok? then old(outcomes.View()).Signalled(One(id)) else old(outcomes.View())
      ensures id !in old(tasks) ==> r == Err(NotFound) && tasks == old(tasks)
      ensures id in old(tasks) && old(tasks)[id].worker != Some(worker) ==> r == Err(Unauthorised) && tasks == old(tasks)
      ensures id in old(tasks) && old(tasks)[id].worker == Some(worker) ==>
        Effect(old(tasks), tasks, Appended(old(tasks), id, chunk), r)
    {
      if id !in tasks {
        return Err(NotFound);
      }
      if tasks[id].worker != Some(worker) {
        return Err(Unauthorised);
      }
      r := StoreOutput(id, chunk);
      if r.Ok? {
        outcomes.Signal(id);
      }
    }

    method StoreOutput(id: string, chunk: string) returns (r: Result<()>)
      modifies this`tasks
      ensures Effect(old(tasks), tasks, Appended(old(tasks), id, chunk), r)
    {
      if chunk == "" {
        return Ok(());
      }
      if id !in tasks || tasks[id].state != TaskRunning {
        return Err(Conflict);
      }
      var output := tasks[id].output + chunk;
      if |output| > MAX_TASK_OUTPUT {
        output := output[|output| - MAX_TASK_OUTPUT..];
      }
      tasks := tasks[id := tasks[id].(output := output)];
      return Ok(());
    }

    /** Records the outcome a worker reports. */
    method Complete(id: string, worker: string, exitCode: int, failure: string, at: Instant) returns (r: Result<()>)
      modifies this`tasks, outcomes
      ensures outcomes.View() == if r.Ok? then old(outcomes.View()).Signalled(One(id)) else old(outcomes.View())
      ensures id !in old(tasks) ==> r == Err(NotFound) && tasks == old(tasks)
      ensures id in old(tasks) && old(tasks)[id].worker != Some(worker) ==> r == Err(Unauthorised) && tasks == old(tasks)
      ensures id in old(tasks) && old(tasks)[id].worker == Some(worker) ==>
        Effect(old(tasks), tasks, Concluded(old(tasks), id, Verdict(exitCode, failure), exitCode, failure, at), r)
    {
      if id !in tasks {
        return Err(NotFound);
      }
      if tasks[id].worker != Some(worker) {
        return Err(Unauthorised);
      }
      var state := TaskSucceeded;
      if exitCode != 0 || failure != "" {
        state := TaskFailed;
      }
      r := Finish(id, state, exitCode, failure, at);
      if r.Ok? {
        outcomes.Signal(id);
      }
    }

    /** Withdraws a task that nobody has picked up. */
    method Cancel(id: string, requester: string, at: Instant) returns (r: Result<()>)
      modifies this`tasks, outcomes
      ensures outcomes.View() == if r.Ok? then old(outcomes.View()).Signalled(One(id)) else old(outcomes.View())
      ensures id !in old(tasks) ==> r == Err(NotFound) && tasks == old(tasks)
      ensures id in old(tasks) && old(tasks)[id].requester != requester ==> r == Err(Unauthorised) && tasks == old(tasks)
      ensures id in old(tasks) && old(tasks)[id].requester == requester ==>
        if old(tasks)[id].state == TaskQueued
        then r == Ok(()) && Concluded(old(tasks), id, TaskCancelled, -1, WITHDRAWN, at) == Ok(tasks)
        else r == Err(Conflict) && tasks == old(tasks)
    {
      if id !in tasks {
        return Err(NotFound);
      }
      if tasks[id].requester != requester {
        return Err(Unauthorised);
      }
      if tasks[id].state != TaskQueued {
        return Err(Conflict);
      }
      r := Finish(id, TaskCancelled, -1, WITHDRAWN, at);
      if r.Ok? {
        outcomes.Signal(id);
      }
    }

    /** The tasks a worker is running, and the resources they are on. */
    ghost function RunBy(t: Table, worker: string): set<string> {
      set id | id in t && t[id].worker == Some(worker) && t[id].state == TaskRunning
    }

    ghost function ResourcesOf(t: Table, ids: set<string>): set<string>
      requires ids <= t.Keys
    {
      set id | id in ids :: t[id].resource
    }

    /**
     Puts a departed worker's running tasks back in the queue, one at a time, and leaves all others
     alone; then wakes, for each, whoever waits for work on its resource.
     */
    method ReleaseAbandoned(worker: string, reason: string) returns (requeued: nat)
      modifies this`tasks, arrivals
      ensures tasks.Keys == old(tasks).Keys
      ensures forall id <- old(tasks) ::
        tasks[id] == if id in RunBy(old(tasks), worker) then Requeued(old(tasks), id, reason)[id] else old(tasks)[id]
      ensures requeued == |RunBy(old(tasks), worker)|
      ensures arrivals.View() == old(arrivals.View()).SignalledEach(ResourcesOf(old(tasks), RunBy(old(tasks), worker)))
    {
      var abandoned := set id | id in tasks && tasks[id].worker == Some(worker) && tasks[id].state == TaskRunning;
      requeued := |abandoned|;
      RequeueAll(abandoned, reason);
      WakeForEach(abandoned);
      assert ResourcesOf(tasks, abandoned) == ResourcesOf(old(tasks), abandoned);
    }

    method RequeueAll(abandoned: set<string>, reason: string)
      requires abandoned <= tasks.Keys && forall id <- abandoned :: tasks[id].state == TaskRunning
      modifies this`tasks
      ensures tasks.Keys == old(tasks).Keys
      ensures forall id <- old(tasks) ::
        tasks[id] == if id in abandoned then Requeued(old(tasks), id, reason)[id] else old(tasks)[id]
    {
      ghost var before := tasks;
      var remaining := abandoned;
      while remaining != {}
        invariant remaining <= abandoned && tasks.Keys == before.Keys
        invariant forall id <- before ::
          tasks[id] == if id in abandoned - remaining then Requeued(before, id, reason)[id] else before[id]
        decreases remaining
      {
        var id :| id in remaining;
        tasks := tasks[id := tasks[id].(
          state := TaskQueued, worker := None, lease := None, startedAt := None, output := "", failure := reason)];
        remaining := remaining - {id};
      }
    }

    method WakeForEach(ids: set<string>)
      requires ids <= tasks.Keys
      modifies arrivals
      ensures arrivals.View() == old(arrivals.View()).SignalledEach(ResourcesOf(tasks, ids))
    {
      ghost var board := arrivals.View();
      var remaining := ids;
      NoneSignalled(board);
      while remaining != {}
        invariant remaining <= ids
        invariant arrivals.View() == board.SignalledEach(ResourcesOf(tasks, ids - remaining))
        decreases remaining
      {
        var id :| id in remaining;
        SignalOneMore(board, ResourcesOf(tasks, ids - remaining), tasks[id].resource);
        assert ResourcesOf(tasks, ids - (remaining - {id})) == ResourcesOf(tasks, ids - remaining) + {tasks[id].resource};
        arrivals.Signal(tasks[id].resource);
        remaining := remaining - {id};
      }
    }
  }
}
