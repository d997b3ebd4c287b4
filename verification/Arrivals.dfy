/**
 Waiting for dispatched work and for its outcome. Workers and requesters watch, look and park while
 others submit, finish and requeue tasks; every write and every signal is a step of its own, and any
 interleaving of them is a run.
 */
module Arrivals {
  import opened Core
  import opened Broadcast
  import Ordering
  import opened Tasks

  /** What a goroutine waits for: something queued, a task of its own, or a task's end. */
  datatype Goal =
    | Work(resource: string)
    | Claiming(resource: string, worker: string, lease: string, noWait: bool)
    | Outcome(task: string)

  /** `skipped` remembers that the last look failed a task whose command had vanished. */
  datatype Phase =
    | Watching                                // about to take the channel
    | Looking(channel: nat)                   // about to look
    | Parked(channel: nat, skipped: bool)     // asleep until the channel closes
    | Returned

  datatype Thread =
    | Waiter(goal: Goal, phase: Phase)
    | Busy(                            // tasks to put back, then keys to signal
        left: seq<string>, reason: string,
        arrivals: seq<string>,         // resources work arrived on
        outcomes: seq<string>,         // tasks that ended
        printed: seq<string>)          // tasks that printed something

  /** `vanished` remembers the tasks a claim failed because their command was gone. */
  datatype World = World(tasks: Table, arrivals: Board, outcomes: Board, threads: map<nat, Thread>, vanished: set<string>)

  datatype Action =
    | Begin(thread: nat, goal: Goal)
    | Watch(thread: nat)
    | Look(thread: nat, catalogue: set<string>, at: Instant)
    | Wake(thread: nat)                              // the channel closed
    | Timeout(thread: nat)                           // the safety-net timer fired
    | Leave(thread: nat)                             // the caller's context ended
    | Commit(thread: nat, op: Op)                    // a submission, report, cancellation or output commits
    | Release(thread: nat, rows: seq<string>, reason: string) // the tasks of a departed worker were read
    | Write(thread: nat)                             // one of them is put back
    | Signal(thread: nat)

  function Key(goal: Goal): string {
    if goal.Outcome? then goal.task else goal.resource
  }

  function BoardOf(w: World, goal: Goal): Board {
    if goal.Outcome? then w.outcomes else w.arrivals
  }

  ghost predicate Queued(t: Table, resource: string) {
    exists id :: IsQueuedOn(t, resource, id)
  }

  /** What the goroutine waits for is there. */
  ghost predicate Available(t: Table, goal: Goal) {
    if goal.Outcome? then goal.task in t && t[goal.task].state.Finished() else Queued(t, goal.resource)
  }

  /** What a committed operation signals: the resource work arrived on, the task that ended, or the one that printed. */
  ghost function Announcing(t: Table, op: Op): Thread {
    match op
    case Submit(id, resource, command, requester, at) =>
      Busy([], "", if Created(t, id, resource, command, requester, at).Ok? then [resource] else [], [], [])
    case Report(id, exitCode, failure, at) =>
      Busy([], "", [], if Concluded(t, id, Verdict(exitCode, failure), exitCode, failure, at).Ok? then [id] else [], [])
    case CallOff(id, at) =>
      Busy([], "", [], if Concluded(t, id, TaskCancelled, -1, WITHDRAWN, at).Ok? then [id] else [], [])
    case Append(id, chunk) => Busy([], "", [], [], if id in t && Appended(t, id, chunk).Ok? then [id] else [])
    case _ => Busy([], "", [], [], [])
  }

  ghost predicate IsWaiter(w: World, thread: nat) {
    thread in w.threads && w.threads[thread].Waiter?
  }

  ghost predicate Can(w: World, a: Action) {
    match a
    case Begin(thread, _) => thread !in w.threads
    case Watch(thread) => IsWaiter(w, thread) && w.threads[thread].phase.Watching?
    case Look(thread, _, _) => IsWaiter(w, thread) && w.threads[thread].phase.Looking?
    case Wake(thread) =>
      && IsWaiter(w, thread) && w.threads[thread].phase.Parked?
      && w.threads[thread].phase.channel in BoardOf(w, w.threads[thread].goal).closed
    case Timeout(thread) => IsWaiter(w, thread) && w.threads[thread].phase.Parked?
    case Leave(thread) => IsWaiter(w, thread) && w.threads[thread].phase.Parked?
    case Commit(thread, op) => thread !in w.threads && !op.TryClaim? && !op.Requeue?
    case Release(thread, rows, _) =>
      thread !in w.threads && forall id <- rows :: id in w.tasks && w.tasks[id].state == TaskRunning
    case Write(thread) => thread in w.threads && w.threads[thread].Busy? && w.threads[thread].left != []
    case Signal(thread) =>
      && thread in w.threads && w.threads[thread].Busy? && w.threads[thread].left == []
      && (w.threads[thread].arrivals != [] || w.threads[thread].outcomes != [] || w.threads[thread].printed != [])
  }

  ghost function Moved(w: World, thread: nat, to: Thread): World {
    w.(threads := w.threads[thread := to])
  }

  ghost function Watched(w: World, thread: nat): World
    requires IsWaiter(w, thread)
  {
    var goal := w.threads[thread].goal;
    var board := BoardOf(w, goal).Watched(Key(goal));
    var looking := Waiter(goal, Looking(board.current[Key(goal)]));
    Moved(if goal.Outcome? then w.(outcomes := board) else w.(arrivals := board), thread, looking)
  }

  /** The task a claim on this resource would come to first, if its command is gone. */
  ghost function GoneNext(t: Table, resource: string, catalogue: set<string>): set<string> {
    set id | id in t && IsNext(t, resource, id) && t[id].command !in catalogue
  }

  ghost function Looked(w: World, thread: nat, catalogue: set<string>, at: Instant): World
    requires IsWaiter(w, thread) && w.threads[thread].phase.Looking?
  {
    var goal, channel := w.threads[thread].goal, w.threads[thread].phase.channel;
    match goal
    case Work(resource) =>
      Moved(w, thread, Waiter(goal, if Queued(w.tasks, resource) then Returned else Parked(channel, false)))
    case Claiming(resource, worker, lease, noWait) =>
      var gone := GoneNext(w.tasks, resource, catalogue);
      var (tasks, claimed) := TryClaimed(w.tasks, resource, worker, lease, gone == {}, at);
      var phase := if claimed.Some? || noWait then Returned else Parked(channel, gone != {});
      Moved(w.(tasks := tasks, vanished := w.vanished + gone), thread, Waiter(goal, phase))
    case Outcome(task) =>
      var over := task !in w.tasks || w.tasks[task].state.Finished();
      Moved(w, thread, Waiter(goal, if over then Returned else Parked(channel, false)))
  }

  ghost function Resources(t: Table, rows: seq<string>): seq<string>
    requires forall id <- rows :: id in t
  {
    seq(|rows|, i requires 0 <= i < |rows| => t[rows[i]].resource)
  }

  ghost function Signalled(w: World, thread: nat): World
    requires Can(w, Signal(thread))
  {
    var b := w.threads[thread];
    if b.arrivals != [] then
      Moved(w.(arrivals := w.arrivals.Signalled(One(b.arrivals[0]))), thread, b.(arrivals := b.arrivals[1..]))
    else if b.outcomes != [] then
      Moved(w.(outcomes := w.outcomes.Signalled(One(b.outcomes[0]))), thread, b.(outcomes := b.outcomes[1..]))
    else
      Moved(w.(outcomes := w.outcomes.Signalled(One(b.printed[0]))), thread, b.(printed := b.printed[1..]))
  }

  ghost function Act(w: World, a: Action): World
    requires Can(w, a)
  {
    match a
    case Begin(thread, goal) => Moved(w, thread, Waiter(goal, Watching))
    case Watch(thread) => Watched(w, thread)
    case Look(thread, catalogue, at) => Looked(w, thread, catalogue, at)
    case Wake(thread) => Moved(w, thread, Waiter(w.threads[thread].goal, Watching))
    case Timeout(thread) => Moved(w, thread, Waiter(w.threads[thread].goal, Watching))
    case Leave(thread) => Moved(w, thread, Waiter(w.threads[thread].goal, Returned))
    case Commit(thread, op) => Moved(w.(tasks := Step(w.tasks, op)), thread, Announcing(w.tasks, op))
    case Release(thread, rows, reason) => Moved(w, thread, Busy(rows, reason, Resources(w.tasks, rows), [], []))
    case Write(thread) =>
      var b := w.threads[thread];
      Moved(w.(tasks := Step(w.tasks, Requeue(b.left[0], b.reason))), thread, b.(left := b.left[1..]))
    case Signal(thread) => Signalled(w, thread)
  }

  const NOBODY := Board(map[], {}, 0)

  const BEGINNING := World(map[], NOBODY, NOBODY, map[], {})

  ghost predicate Possible(run: seq<Action>)
    decreases |run|, 0
  {
    run == [] || (Possible(run[..|run| - 1]) && Can(After(run[..|run| - 1]), run[|run| - 1]))
  }

  ghost function After(run: seq<Action>): World
    requires Possible(run)
    decreases |run|, 1
  {
    if run == [] then BEGINNING else Act(After(run[..|run| - 1]), run[|run| - 1])
  }

  // ----- the invariant -----

  function Signals(b: Thread, goal: Goal): seq<string>
    requires b.Busy?
  {
    if goal.Outcome? then b.outcomes + b.printed else b.arrivals
  }

  /** Somebody will signal this goal's key. */
  ghost predicate Coming(w: World, goal: Goal) {
    exists t :: t in w.threads && w.threads[t].Busy? && Key(goal) in Signals(w.threads[t], goal)
  }

  /** Somebody will signal that this task printed something. */
  ghost predicate Printing(w: World, task: string) {
    exists t :: t in w.threads && w.threads[t].Busy? && task in w.threads[t].printed
  }

  ghost predicate Hears(w: World, goal: Goal, channel: nat) {
    var board := BoardOf(w, goal);
    channel < board.issued && (channel in board.closed || (Key(goal) in board.current && board.current[Key(goal)] == channel))
  }

  /** Asleep on a channel that is still open. */
  ghost predicate Sleeps(w: World, t: nat) {
    && t in w.threads && w.threads[t].Waiter? && w.threads[t].phase.Parked?
    && w.threads[t].phase.channel !in BoardOf(w, w.threads[t].goal).closed
  }

  /** Asleep although what it waits for is there, with nobody about to signal it. */
  ghost predicate Oversleeps(w: World, t: nat) {
    Sleeps(w, t) && Available(w.tasks, w.threads[t].goal) && !Coming(w, w.threads[t].goal)
  }

  /** The one excuse for oversleeping: the claim skipped a task, or the task awaited was skipped. */
  ghost predicate Excused(w: World, goal: Goal, phase: Phase) {
    match goal
    case Work(_) => false
    case Claiming(_, _, _, _) => phase.Parked? && phase.skipped
    case Outcome(task) => task in w.vanished
  }

  ghost predicate Fares(w: World, t: nat)
    requires t in w.threads
  {
    match w.threads[t]
    case Waiter(goal, phase) =>
      && (phase.Looking? || phase.Parked? ==> Hears(w, goal, phase.channel))
      && (Oversleeps(w, t) ==> Excused(w, goal, phase))
    case Busy(left, _, arrivals, outcomes, _) =>
      && (forall id <- left :: id in w.tasks && w.tasks[id].resource in arrivals)
      && (forall id <- outcomes :: id in w.tasks && w.tasks[id].state.Finished() && id !in w.vanished)
  }

  ghost predicate Sound(w: World) {
    && w.arrivals.Valid() && w.outcomes.Valid()
    && (forall id <- w.vanished :: id in w.tasks && w.tasks[id].state == TaskFailed)
    && forall t <- w.threads :: Fares(w, t)
  }

  // ----- what a write makes available -----

  /** Only a submission or a requeueing makes work available, and only on its own resource. */
  lemma StepQueues(t: Table, op: Op, resource: string)
    requires Queued(Step(t, op), resource) && !Queued(t, resource)
    ensures op.Submit? || op.Requeue?
    ensures op.Submit? ==> Announcing(t, op).arrivals == [resource]
    ensures op.Requeue? ==> op.id in t && t[op.id].resource == resource
  {
    var id :| IsQueuedOn(Step(t, op), resource, id);
    assert !IsQueuedOn(t, resource, id);
  }

  /** Only a report, a cancellation or a claim that finds the command gone ends a task. */
  lemma StepFinishes(t: Table, op: Op, id: string)
    requires id in Step(t, op) && Step(t, op)[id].state.Finished()
    requires !(id in t && t[id].state.Finished())
    ensures op.Report? || op.CallOff? || op.TryClaim?
    ensures op.Report? || op.CallOff? ==> Announcing(t, op).outcomes == [id]
    ensures op.TryClaim? ==> !op.configured && IsNext(t, op.resource, id)
  {
  }

  /** A commit that makes a goal available is one whose author will signal just its key. */
  lemma CommitAnnounces(t: Table, op: Op, goal: Goal)
    requires !op.TryClaim? && !op.Requeue?
    requires Available(Step(t, op), goal) && !Available(t, goal)
    ensures Signals(Announcing(t, op), goal) == [Key(goal)]
  {
    if goal.Outcome? {
      StepFinishes(t, op, goal.task);
    } else {
      StepQueues(t, op, goal.resource);
    }
  }

  /** And it signals nothing that did not happen. */
  lemma AnnouncedIsSo(t: Table, op: Op)
    ensures forall r <- Announcing(t, op).arrivals :: Queued(Step(t, op), r)
    ensures forall id <- Announcing(t, op).outcomes ::
      !(id in t && t[id].state.Finished()) && id in Step(t, op) && Step(t, op)[id].state.Finished()
  {
    if op.Submit? && Created(t, op.id, op.resource, op.command, op.requester, op.at).Ok? {
      assert IsQueuedOn(Step(t, op), op.resource, op.id);
    }
  }

  // ----- steps of the tables -----

  /** A thread writes to the tables; everybody who stays where they were is carried along. */
  lemma WriteKeepsOthers(w: World, w': World, op: Op, moved: nat, t: nat)
    requires Sound(w) && moved in w'.threads && t in w.threads && t != moved
    requires w' == w.(tasks := Step(w.tasks, op), threads := w.threads[moved := w'.threads[moved]], vanished := w'.vanished)
    requires w.vanished <= w'.vanished
    requires forall id <- w'.vanished - w.vanished :: id in w.tasks && !w.tasks[id].state.Finished()
    requires forall goal :: Coming(w, goal) ==> Coming(w', goal)
    requires forall goal: Goal :: Available(w'.tasks, goal) && !Available(w.tasks, goal) ==>
      Coming(w', goal) || (goal.Outcome? && goal.task in w'.vanished)
    ensures Fares(w', t)
  {
    assert Fares(w, t);
    match w.threads[t]
    case Waiter(goal, _) =>
    case Busy(left, _, _, outcomes, _) =>
      forall id | id in left || id in outcomes
        ensures id in w'.tasks && w'.tasks[id].resource == w.tasks[id].resource
        ensures w.tasks[id].state.Finished() ==> w'.tasks[id] == w.tasks[id]
      {
        StepKeepsTasks(w.tasks, op, id);
      }
  }

  lemma VanishedStayFailed(w: World, op: Op)
    requires Sound(w)
    ensures forall id <- w.vanished :: id in Step(w.tasks, op) && Step(w.tasks, op)[id].state == TaskFailed
  {
    forall id <- w.vanished ensures id in Step(w.tasks, op) && Step(w.tasks, op)[id].state == TaskFailed {
      StepKeepsTasks(w.tasks, op, id);
    }
  }

  lemma StillComing(w: World, w': World, moved: nat)
    requires forall t <- w.threads :: t != moved ==> t in w'.threads && w'.threads[t] == w.threads[t]
    requires moved in w.threads && w.threads[moved].Busy? ==>
      && moved in w'.threads && w'.threads[moved].Busy?
      && forall goal :: Signals(w'.threads[moved], goal) == Signals(w.threads[moved], goal)
    ensures forall goal :: Coming(w, goal) ==> Coming(w', goal)
  {
    forall goal | Coming(w, goal) ensures Coming(w', goal) {
      var t :| t in w.threads && w.threads[t].Busy? && Key(goal) in Signals(w.threads[t], goal);
      assert t in w'.threads && w'.threads[t].Busy?;
    }
  }

  lemma CommitKeepsSound(w: World, a: Action)
    requires Sound(w) && Can(w, a) && a.Commit?
    ensures Sound(Act(w, a))
  {
    var w' := Act(w, a);
    StillComing(w, w', a.thread);
    VanishedStayFailed(w, a.op);
    AnnouncedIsSo(w.tasks, a.op);
    forall goal: Goal | Available(w'.tasks, goal) && !Available(w.tasks, goal) ensures Coming(w', goal) {
      CommitAnnounces(w.tasks, a.op, goal);
      assert a.thread in w'.threads && w'.threads[a.thread] == Announcing(w.tasks, a.op);
    }
    forall t <- w.threads ensures Fares(w', t) {
      WriteKeepsOthers(w, w', a.op, a.thread, t);
    }
  }

  /** Putting a task back makes work available where its thread will signal it. */
  lemma RequeueAnnounces(w: World, thread: nat, goal: Goal)
    requires Sound(w) && Can(w, Write(thread))
    requires Available(Act(w, Write(thread)).tasks, goal) && !Available(w.tasks, goal)
    ensures Coming(Act(w, Write(thread)), goal)
  {
    var w', b := Act(w, Write(thread)), w.threads[thread];
    var op := Requeue(b.left[0], b.reason);
    assert Fares(w, thread) && b.left[0] in b.left;
    if goal.Outcome? {
      StepFinishes(w.tasks, op, goal.task);
    } else {
      StepQueues(w.tasks, op, goal.resource);
      assert w'.threads[thread].Busy? && Key(goal) in Signals(w'.threads[thread], goal);
    }
  }

  lemma WriteKeepsSound(w: World, a: Action)
    requires Sound(w) && Can(w, a) && a.Write?
    ensures Sound(Act(w, a))
  {
    var w', b := Act(w, a), w.threads[a.thread];
    var op := Requeue(b.left[0], b.reason);
    assert Fares(w, a.thread);
    StillComing(w, w', a.thread);
    VanishedStayFailed(w, op);
    forall goal: Goal | Available(w'.tasks, goal) && !Available(w.tasks, goal) ensures Coming(w', goal) {
      RequeueAnnounces(w, a.thread, goal);
    }
    forall t <- w.threads | t != a.thread ensures Fares(w', t) {
      WriteKeepsOthers(w, w', op, a.thread, t);
    }
    forall id | id in b.left[1..] || id in b.outcomes
      ensures id in w'.tasks && w'.tasks[id].resource == w.tasks[id].resource
      ensures w.tasks[id].state.Finished() ==> w'.tasks[id] == w.tasks[id]
    {
      assert id in b.left || id in b.outcomes;
      StepKeepsTasks(w.tasks, op, id);
    }
  }

  /** A claim that skips nothing and claims nothing found nothing queued. */
  lemma ParkedFoundNothing(t: Table, resource: string, worker: string, lease: string, at: Instant)
    ensures var (tasks, claimed) := TryClaimed(t, resource, worker, lease, true, at);
      claimed.None? ==> tasks == t && !Queued(t, resource)
  {
    if Queued(t, resource) {
      SomethingIsNext(t, resource);
    }
  }

  lemma SomethingIsNext(t: Table, resource: string)
    requires Queued(t, resource)
    ensures exists id :: IsNext(t, resource, id)
  {
    var keys := set id | id in t && IsQueuedOn(t, resource, id) :: TaskKey(id, t[id]);
    var some :| IsQueuedOn(t, resource, some);
    assert TaskKey(some, t[some]) in keys;
    Ordering.LeastExists(keys);
    var least :| Ordering.IsLeast(least, keys);
    assert IsQueuedOn(t, resource, least.id) && least == TaskKey(least.id, t[least.id]);
    forall other <- t | IsQueuedOn(t, resource, other) && other != least.id
      ensures Ordering.KeyLess(TaskKey(least.id, t[least.id]), TaskKey(other, t[other]))
    {
      assert TaskKey(other, t[other]) in keys;
    }
    assert IsNext(t, resource, least.id);
  }

  // ----- steps of the waiters -----

  /** A waiter moves on; tables and channels stay as they are. */
  lemma MoveKeepsSound(w: World, moved: nat, to: Thread)
    requires Sound(w) && (moved in w.threads ==> w.threads[moved].Waiter?)
    requires Fares(Moved(w, moved, to), moved)
    ensures Sound(Moved(w, moved, to))
  {
    var w' := Moved(w, moved, to);
    StillComing(w, w', moved);
    forall t <- w.threads | t != moved ensures Fares(w', t) {
      assert Fares(w, t);
    }
  }

  /** A new channel leaves those already taken as they were. */
  lemma WatchKeepsOther(w: World, thread: nat, t: nat)
    requires Sound(w) && Can(w, Watch(thread)) && t in w.threads && t != thread
    requires forall goal :: Coming(w, goal) ==> Coming(Watched(w, thread), goal)
    ensures Fares(Watched(w, thread), t)
  {
    assert Fares(w, t);
  }

  lemma WatchKeepsSound(w: World, thread: nat)
    requires Sound(w) && Can(w, Watch(thread))
    ensures Sound(Watched(w, thread))
  {
    var w', goal := Watched(w, thread), w.threads[thread].goal;
    StillComing(w, w', thread);
    forall t <- w.threads | t != thread ensures Fares(w', t) {
      WatchKeepsOther(w, thread, t);
    }
    WatchHears(w, thread);
  }

  lemma WatchHears(w: World, thread: nat)
    requires Sound(w) && Can(w, Watch(thread))
    ensures var w' := Watched(w, thread); w'.arrivals.Valid() && w'.outcomes.Valid() && Fares(w', thread)
  {
    var goal := w.threads[thread].goal;
    WatchedIsValid(BoardOf(w, goal), Key(goal));
  }

  /** What the claim failed was queued, and is the first in line. */
  lemma GoneIsQueued(t: Table, resource: string, catalogue: set<string>, id: string)
    requires id in GoneNext(t, resource, catalogue)
    ensures id in t && t[id].state == TaskQueued
    ensures GoneNext(t, resource, catalogue) == {id}
  {
    forall other <- GoneNext(t, resource, catalogue) ensures other == id {
      NextIsUnique(t, resource, id, other);
    }
  }

  /** A claim that finds the command gone fails that task, claims nothing and changes nothing else. */
  lemma GoneIsFailed(t: Table, resource: string, worker: string, lease: string, catalogue: set<string>, at: Instant, id: string)
    requires id in GoneNext(t, resource, catalogue)
    ensures TryClaimed(t, resource, worker, lease, false, at)
            == (Concluded(t, id, TaskFailed, -1, VANISHED, at).value, None)
  {
    var next :| IsNext(t, resource, next)
      && TryClaimed(t, resource, worker, lease, false, at) == (Concluded(t, next, TaskFailed, -1, VANISHED, at).value, None);
    NextIsUnique(t, resource, id, next);
  }

  lemma ClaimKeepsVanished(w: World, thread: nat, catalogue: set<string>, at: Instant)
    requires Sound(w) && Can(w, Look(thread, catalogue, at)) && w.threads[thread].goal.Claiming?
    ensures var w' := Looked(w, thread, catalogue, at);
      && (forall id <- w'.vanished :: id in w'.tasks && w'.tasks[id].state == TaskFailed)
      && (forall id <- w'.vanished - w.vanished :: id in w.tasks && !w.tasks[id].state.Finished())
  {
    var goal := w.threads[thread].goal;
    var gone := GoneNext(w.tasks, goal.resource, catalogue);
    VanishedStayFailed(w, TryClaim(goal.resource, goal.worker, goal.lease, gone == {}, at));
    forall id <- gone ensures gone == {id} && w.tasks[id].state == TaskQueued {
      GoneIsQueued(w.tasks, goal.resource, catalogue, id);
    }
    if id :| id in gone {
      GoneIsFailed(w.tasks, goal.resource, goal.worker, goal.lease, catalogue, at, id);
    }
  }

  /** All a claim makes available is the end of a task it failed. */
  lemma ClaimAnnounces(w: World, thread: nat, catalogue: set<string>, at: Instant, other: Goal)
    requires Can(w, Look(thread, catalogue, at)) && w.threads[thread].goal.Claiming?
    requires Available(Looked(w, thread, catalogue, at).tasks, other) && !Available(w.tasks, other)
    ensures other.Outcome? && other.task in Looked(w, thread, catalogue, at).vanished
  {
    var goal := w.threads[thread].goal;
    var gone := GoneNext(w.tasks, goal.resource, catalogue);
    var op := TryClaim(goal.resource, goal.worker, goal.lease, gone == {}, at);
    if other.Outcome? {
      StepFinishes(w.tasks, op, other.task);
      var id :| id in gone;
      NextIsUnique(w.tasks, goal.resource, id, other.task);
    } else {
      StepQueues(w.tasks, op, other.resource);
    }
  }

  lemma ClaimKeepsSound(w: World, thread: nat, catalogue: set<string>, at: Instant)
    requires Sound(w) && Can(w, Look(thread, catalogue, at)) && w.threads[thread].goal.Claiming?
    ensures Sound(Looked(w, thread, catalogue, at))
  {
    var w', goal := Looked(w, thread, catalogue, at), w.threads[thread].goal;
    var gone := GoneNext(w.tasks, goal.resource, catalogue);
    var op := TryClaim(goal.resource, goal.worker, goal.lease, gone == {}, at);
    assert Fares(w, thread);
    StillComing(w, w', thread);
    ClaimKeepsVanished(w, thread, catalogue, at);
    forall other: Goal | Available(w'.tasks, other) && !Available(w.tasks, other)
      ensures other.Outcome? && other.task in w'.vanished
    {
      ClaimAnnounces(w, thread, catalogue, at, other);
    }
    forall t <- w.threads | t != thread ensures Fares(w', t) {
      WriteKeepsOthers(w, w', op, thread, t);
    }
    if gone == {} {
      ParkedFoundNothing(w.tasks, goal.resource, goal.worker, goal.lease, at);
    }
  }

  lemma LookKeepsSound(w: World, thread: nat, catalogue: set<string>, at: Instant)
    requires Sound(w) && Can(w, Look(thread, catalogue, at))
    ensures Sound(Looked(w, thread, catalogue, at))
  {
    if w.threads[thread].goal.Claiming? {
      ClaimKeepsSound(w, thread, catalogue, at);
    } else {
      assert Fares(w, thread);
      MoveKeepsSound(w, thread, Looked(w, thread, catalogue, at).threads[thread]);
    }
  }

  // ----- signals -----

  /** The key a thread signals next, and whether it is a task's. */
  ghost function NextSignal(b: Thread): (string, bool)
    requires b.Busy? && (b.arrivals != [] || b.outcomes != [] || b.printed != [])
  {
    if b.arrivals != [] then (b.arrivals[0], false)
    else if b.outcomes != [] then (b.outcomes[0], true)
    else (b.printed[0], true)
  }

  /** What was to be signalled still is, apart from the one key signalled now. */
  lemma OthersStillComing(w: World, thread: nat, goal: Goal)
    requires Can(w, Signal(thread))
    requires (Key(goal), goal.Outcome?) != NextSignal(w.threads[thread])
    ensures Coming(w, goal) <==> Coming(Signalled(w, thread), goal)
  {
    var w', b := Signalled(w, thread), w.threads[thread];
    var b' := w'.threads[thread];
    assert Key(goal) in Signals(b, goal) <==> Key(goal) in Signals(b', goal) by {
      if b.arrivals != [] {
        assert b.arrivals == [b.arrivals[0]] + b.arrivals[1..];
      } else if b.outcomes != [] {
        assert b.outcomes == [b.outcomes[0]] + b.outcomes[1..];
      } else {
        assert b.printed == [b.printed[0]] + b.printed[1..];
      }
    }
    if Coming(w, goal) {
      var u :| u in w.threads && w.threads[u].Busy? && Key(goal) in Signals(w.threads[u], goal);
      assert u in w'.threads && w'.threads[u].Busy? && Key(goal) in Signals(w'.threads[u], goal);
    }
  }

  /** A signal closes the channel of its key and of no other. */
  lemma SignalCloses(w: World, thread: nat, goal: Goal, channel: nat)
    requires Sound(w) && Can(w, Signal(thread)) && Hears(w, goal, channel)
    ensures Hears(Signalled(w, thread), goal, channel)
    ensures channel in BoardOf(Signalled(w, thread), goal).closed
      <==> channel in BoardOf(w, goal).closed || (Key(goal), goal.Outcome?) == NextSignal(w.threads[thread])
  {
    var (key, outcome) := NextSignal(w.threads[thread]);
    if outcome == goal.Outcome? && Key(goal) in BoardOf(w, goal).current {
      SignalClosesWhatItCovers(BoardOf(w, goal), One(key), Key(goal));
    }
  }

  /** What was coming still is, or its channel has been closed. */
  lemma SignalOnlyWakes(w: World, thread: nat, t: nat)
    requires Sound(w) && Can(w, Signal(thread)) && t in w.threads && t != thread
    ensures Fares(Signalled(w, thread), t)
  {
    assert Fares(w, t);
    if w.threads[t].Waiter? && (w.threads[t].phase.Looking? || w.threads[t].phase.Parked?) {
      var goal := w.threads[t].goal;
      SignalCloses(w, thread, goal, w.threads[t].phase.channel);
      if (Key(goal), goal.Outcome?) != NextSignal(w.threads[thread]) {
        OthersStillComing(w, thread, goal);
      }
    }
  }

  lemma SignalKeepsSound(w: World, thread: nat)
    requires Sound(w) && Can(w, Signal(thread))
    ensures Sound(Signalled(w, thread))
  {
    var w' := Signalled(w, thread);
    assert Fares(w, thread);
    var (key, outcome) := NextSignal(w.threads[thread]);
    SignalledIsValid(if outcome then w.outcomes else w.arrivals, One(key));
    forall t <- w.threads | t != thread ensures Fares(w', t) {
      SignalOnlyWakes(w, thread, t);
    }
  }

  lemma ReleaseKeepsSound(w: World, a: Action)
    requires Sound(w) && Can(w, a) && a.Release?
    ensures Sound(Act(w, a))
  {
    var to := Act(w, a).threads[a.thread];
    forall id <- a.rows ensures w.tasks[id].resource in to.arrivals {
      var i :| 0 <= i < |a.rows| && a.rows[i] == id;
      assert to.arrivals[i] == w.tasks[id].resource;
    }
    MoveKeepsSound(w, a.thread, to);
  }

  lemma ActKeepsSound(w: World, a: Action)
    requires Sound(w) && Can(w, a)
    ensures Sound(Act(w, a))
  {
    match a
    case Watch(thread) => WatchKeepsSound(w, thread);
    case Look(thread, catalogue, at) => LookKeepsSound(w, thread, catalogue, at);
    case Commit(_, _) => CommitKeepsSound(w, a);
    case Release(_, _, _) => ReleaseKeepsSound(w, a);
    case Write(_) => WriteKeepsSound(w, a);
    case Signal(thread) => SignalKeepsSound(w, thread);
    case Begin(thread, goal) => MoveKeepsSound(w, thread, Waiter(goal, Watching));
    case Wake(thread) => MoveKeepsSound(w, thread, Waiter(w.threads[thread].goal, Watching));
    case Timeout(thread) => MoveKeepsSound(w, thread, Waiter(w.threads[thread].goal, Watching));
    case Leave(thread) => MoveKeepsSound(w, thread, Waiter(w.threads[thread].goal, Returned));
  }

  lemma {:induction false} RunsAreSound(run: seq<Action>)
    requires Possible(run)
    ensures Sound(After(run))
  {
    if run != [] {
      RunsAreSound(run[..|run| - 1]);
      ActKeepsSound(After(run[..|run| - 1]), run[|run| - 1]);
    }
  }

  // ----- the theorems -----

  /**
   No lost wake-up for work: in every interleaving a worker asleep on an open channel while something
   is queued on its resource has a signal coming.
   */
  lemma WorkIsHeardOf(run: seq<Action>, t: nat)
    requires Possible(run) && Sleeps(After(run), t) && After(run).threads[t].goal.Work?
    ensures !Oversleeps(After(run), t)
  {
    RunsAreSound(run);
    assert Fares(After(run), t);
  }

  /** A claim can sleep through queued work only if its last look failed a task whose command was gone. */
  lemma ClaimIsWokenUnlessItSkipped(run: seq<Action>, t: nat)
    requires Possible(run) && Sleeps(After(run), t) && After(run).threads[t].goal.Claiming?
    ensures Oversleeps(After(run), t) ==> After(run).threads[t].phase.skipped
  {
    RunsAreSound(run);
    assert Fares(After(run), t);
  }

  /**
   And a claim that does skip a task goes to sleep over queued work exactly when something else was
   queued, its channel has not been closed since it was taken, and no other arrival is still to be signalled.
   */
  lemma SkippingSleepsOverTheRest(run: seq<Action>, t: nat, catalogue: set<string>, at: Instant, gone: string)
    requires Possible(run) && Can(After(run), Look(t, catalogue, at))
    requires After(run).threads[t].goal.Claiming? && !After(run).threads[t].goal.noWait
    requires gone in GoneNext(After(run).tasks, After(run).threads[t].goal.resource, catalogue)
    ensures var w, goal := After(run), After(run).threads[t].goal;
      Oversleeps(Act(w, Look(t, catalogue, at)), t) <==>
        && w.threads[t].phase.channel !in w.arrivals.closed
        && (exists id :: id != gone && IsQueuedOn(w.tasks, goal.resource, id))
        && !Coming(w, goal)
  {
    var w, goal := After(run), After(run).threads[t].goal;
    var w' := Act(w, Look(t, catalogue, at));
    GoneIsQueued(w.tasks, goal.resource, catalogue, gone);
    GoneIsFailed(w.tasks, goal.resource, goal.worker, goal.lease, catalogue, at, gone);
    assert forall id :: IsQueuedOn(w'.tasks, goal.resource, id) <==> id != gone && IsQueuedOn(w.tasks, goal.resource, id);
    StillComing(w, w', t);
    StillComing(w', w, t);
  }

  /**
   A requester sleeps through the end of its task exactly when a claim failed the task because its
   command was gone, and no output of an earlier attempt is still to be signalled.
   */
  lemma OutcomeIsHeardOfUnlessVanished(run: seq<Action>, t: nat)
    requires Possible(run) && Sleeps(After(run), t) && After(run).threads[t].goal.Outcome?
    ensures var w, task := After(run), After(run).threads[t].goal.task;
      Oversleeps(w, t) <==> task in w.vanished && !Printing(w, task)
  {
    RunsAreSound(run);
    var w, goal := After(run), After(run).threads[t].goal;
    assert Fares(w, t);
    if Printing(w, goal.task) {
      var u :| u in w.threads && w.threads[u].Busy? && goal.task in w.threads[u].printed;
      assert Key(goal) in Signals(w.threads[u], goal);
    }
    if goal.task in w.vanished && Coming(w, goal) {
      var u :| u in w.threads && w.threads[u].Busy? && Key(goal) in Signals(w.threads[u], goal);
      assert Fares(w, u);
    }
  }

  // ----- nothing but the timer wakes them -----

  /** The waiter's own timer or caller, or an output call on its task that was already under way. */
  predicate Rouses(a: Action, t: nat, task: string) {
    || (a.Timeout? && a.thread == t)
    || (a.Leave? && a.thread == t)
    || (a.Commit? && a.op.Append? && a.op.id == task)
  }

  /** Output that is taken, and only that, leaves a signal to give, and giving it lets everyone parked on the task wake. */
  lemma OutputWakes(run: seq<Action>, thread: nat, id: string, chunk: string)
    requires Possible(run) && thread !in After(run).threads && id in After(run).tasks
    ensures var w := Act(After(run), Commit(thread, Append(id, chunk)));
      && (Can(w, Signal(thread)) <==> chunk == "" || Running(After(run).tasks, id))
      && (Can(w, Signal(thread)) ==>
            var w' := Act(w, Signal(thread));
            forall t | IsWaiter(w', t) && w'.threads[t].goal == Outcome(id) && w'.threads[t].phase.Parked? ::
              Can(w', Wake(t)))
  {
    RunsAreSound(run);
    var commit := Commit(thread, Append(id, chunk));
    var w := Act(After(run), commit);
    ActKeepsSound(After(run), commit);
    if Can(w, Signal(thread)) {
      var w' := Act(w, Signal(thread));
      forall t | IsWaiter(w', t) && w'.threads[t].goal == Outcome(id) && w'.threads[t].phase.Parked? ensures Can(w', Wake(t)) {
        assert w.threads[t] == w'.threads[t] && Fares(w, t);
        SignalCloses(w, thread, Outcome(id), w.threads[t].phase.channel);
      }
    }
  }

  /** After the skipped task has failed nobody has reason to signal it. */
  lemma NobodySignals(w: World, a: Action, goal: Goal)
    requires Sound(w) && Can(w, a) && goal.Outcome? && goal.task in w.vanished && !Coming(w, goal)
    requires !(a.Commit? && a.op.Append? && a.op.id == goal.task)
    ensures !Coming(Act(w, a), goal)
  {
    var w' := Act(w, a);
    if a.Commit? {
      AnnouncedIsSo(w.tasks, a.op);
    }
    if a.Signal? {
      assert (Key(goal), true) != NextSignal(w.threads[a.thread]) by {
        assert NextSignal(w.threads[a.thread]).1 ==> NextSignal(w.threads[a.thread]).0 in Signals(w.threads[a.thread], goal);
      }
      OthersStillComing(w, a.thread, goal);
    } else {
      forall u | u in w'.threads && w'.threads[u].Busy? ensures Key(goal) !in Signals(w'.threads[u], goal) {
        if u in w.threads && w.threads[u].Busy? {
          assert Key(goal) !in Signals(w.threads[u], goal);
        }
      }
    }
  }

  lemma StepSleepsOn(w: World, a: Action, t: nat)
    requires Sound(w) && Can(w, a) && Oversleeps(w, t) && w.threads[t].goal.Outcome?
    requires !Rouses(a, t, w.threads[t].goal.task)
    ensures Oversleeps(Act(w, a), t) && Act(w, a).threads[t] == w.threads[t]
  {
    var w', goal := Act(w, a), w.threads[t].goal;
    assert Fares(w, t);
    NobodySignals(w, a, goal);
    TaskStaysFinished(w, a, goal.task);
    if a.Signal? {
      SignalCloses(w, a.thread, goal, w.threads[t].phase.channel);
      assert NextSignal(w.threads[a.thread]).1 ==> NextSignal(w.threads[a.thread]).0 in Signals(w.threads[a.thread], goal);
    }
  }

  lemma TaskStaysFinished(w: World, a: Action, task: string)
    requires Can(w, a) && task in w.tasks && w.tasks[task].state.Finished()
    ensures task in Act(w, a).tasks && Act(w, a).tasks[task].state.Finished()
  {
    match a
    case Commit(_, op) => StepKeepsTasks(w.tasks, op, task);
    case Write(thread) =>
      StepKeepsTasks(w.tasks, Requeue(w.threads[thread].left[0], w.threads[thread].reason), task);
    case Look(thread, catalogue, at) =>
      var goal := w.threads[thread].goal;
      if goal.Claiming? {
        var gone := GoneNext(w.tasks, goal.resource, catalogue);
        StepKeepsTasks(w.tasks, TryClaim(goal.resource, goal.worker, goal.lease, gone == {}, at), task);
      }
    case _ =>
  }

  /** Whoever sleeps through the end of a task sleeps on through every continuation, until its own timer or caller. */
  lemma {:induction false} VanishedSleepsOn(run: seq<Action>, more: seq<Action>, t: nat)
    requires Possible(run) && Possible(run + more)
    requires Oversleeps(After(run), t) && After(run).threads[t].goal.Outcome?
    requires forall a <- more :: !Rouses(a, t, After(run).threads[t].goal.task)
    ensures Oversleeps(After(run + more), t) && After(run + more).threads[t] == After(run).threads[t]
    decreases |more|
  {
    if more == [] {
      assert run + more == run;
    } else {
      var before, last := more[..|more| - 1], more[|more| - 1];
      assert (run + more)[..|run + more| - 1] == run + before && last in more;
      assert forall a <- before :: a in more;
      VanishedSleepsOn(run, before, t);
      RunsAreSound(run + before);
      StepSleepsOn(After(run + before), last, t);
    }
  }

  // ----- what a look finds -----

  /** Step i of the run begins this wait. */
  predicate BegunAt(run: seq<Action>, i: int, t: nat, goal: Goal) {
    0 <= i < |run| && run[i] == Begin(t, goal)
  }

  /** It keeps its goal, and a claim that is not to wait never sleeps. */
  ghost predicate Waits(w: World, t: nat, goal: Goal) {
    && IsWaiter(w, t) && w.threads[t].goal == goal
    && (goal.Claiming? && goal.noWait ==> !w.threads[t].phase.Parked?)
  }

  lemma {:induction false} WaiterKeepsGoal(run: seq<Action>, i: nat, t: nat, goal: Goal)
    requires Possible(run) && BegunAt(run, i, t, goal)
    ensures Waits(After(run), t, goal)
  {
    var before := run[..|run| - 1];
    if i < |before| {
      WaiterKeepsGoal(before, i, t, goal);
    }
  }

  /** A closed channel or the timer sends a sleeper back to watch again, its caller ends the wait, and nothing else moves it. */
  lemma SleeperWatchesAgain(w: World, a: Action, t: nat)
    requires Can(w, a) && IsWaiter(w, t) && w.threads[t].phase.Parked?
    ensures t in Act(w, a).threads
    ensures Act(w, a).threads[t] ==
      if (a.Wake? || a.Timeout?) && a.thread == t then Waiter(w.threads[t].goal, Watching)
      else if a.Leave? && a.thread == t then Waiter(w.threads[t].goal, Returned)
      else w.threads[t]
  {
  }

  /** Somebody's oldest queued task of the resource, with a command of the catalogue. */
  ghost predicate Runnable(t: Table, resource: string, catalogue: set<string>, id: string) {
    IsNext(t, resource, id) && t[id].command in catalogue
  }

  /**
   What a look comes to, for whoever began the wait. One that waits for work returns exactly when something
   is queued; one that waits for a task returns exactly when the task has ended or does not exist; and a
   claim takes the oldest task if its command is configured, and otherwise sleeps unless it is not to wait.
   */
  lemma LookDecides(run: seq<Action>, i: nat, t: nat, goal: Goal, catalogue: set<string>, at: Instant)
    requires Possible(run) && BegunAt(run, i, t, goal) && Can(After(run), Look(t, catalogue, at))
    ensures var w, w' := After(run), Act(After(run), Look(t, catalogue, at));
      && t in w.threads && t in w'.threads && w.threads[t].Waiter? && w'.threads[t].Waiter?
      && w'.arrivals == w.arrivals && w'.outcomes == w.outcomes
      && var phase, channel := w'.threads[t].phase, w.threads[t].phase.channel;
         match goal
         case Work(resource) =>
           w'.tasks == w.tasks
           && phase == if exists id :: IsQueuedOn(w.tasks, resource, id) then Returned else Parked(channel, false)
         case Outcome(task) =>
           w'.tasks == w.tasks
           && phase == if task in w.tasks && !w.tasks[task].state.Finished() then Parked(channel, false) else Returned
         case Claiming(resource, worker, lease, noWait) =>
           && (forall id :: Runnable(w.tasks, resource, catalogue, id) ==>
                 && phase == Returned
                 && w'.tasks == w.tasks[id := w.tasks[id].(
                      state := TaskRunning, worker := Some(worker), lease := Some(lease), startedAt := Some(at))])
           && ((forall id :: !Runnable(w.tasks, resource, catalogue, id)) ==>
                 if noWait then phase == Returned else phase.Parked? && phase.channel == channel)
  {
    WaiterKeepsGoal(run, i, t, goal);
    if goal.Claiming? {
      ClaimLookDecides(After(run), t, catalogue, at);
    }
  }

  lemma ClaimLookDecides(w: World, t: nat, catalogue: set<string>, at: Instant)
    requires Can(w, Look(t, catalogue, at)) && w.threads[t].goal.Claiming?
    ensures var w', goal := Looked(w, t, catalogue, at), w.threads[t].goal;
      var phase, channel := w'.threads[t].phase, w.threads[t].phase.channel;
      && (forall id :: Runnable(w.tasks, goal.resource, catalogue, id) ==>
            && phase == Returned
            && w'.tasks == w.tasks[id := w.tasks[id].(
                 state := TaskRunning, worker := Some(goal.worker), lease := Some(goal.lease), startedAt := Some(at))])
      && ((forall id :: !Runnable(w.tasks, goal.resource, catalogue, id)) ==>
            if goal.noWait then phase == Returned else phase.Parked? && phase.channel == channel)
  {
    var goal := w.threads[t].goal;
    var gone := GoneNext(w.tasks, goal.resource, catalogue);
    forall id | Runnable(w.tasks, goal.resource, catalogue, id)
      ensures gone == {}
      ensures TryClaimed(w.tasks, goal.resource, goal.worker, goal.lease, true, at)
        == (w.tasks[id := w.tasks[id].(
              state := TaskRunning, worker := Some(goal.worker), lease := Some(goal.lease), startedAt := Some(at))], Some(id))
    {
      forall other <- gone ensures false {
        NextIsUnique(w.tasks, goal.resource, id, other);
      }
      var op := TryClaim(goal.resource, goal.worker, goal.lease, true, at);
      OldestIsTaken(w.tasks, op, id);
      ClaimTakesTheOldest(w.tasks, op, id);
    }
    if forall id :: !Runnable(w.tasks, goal.resource, catalogue, id) {
      NothingRunnable(w.tasks, goal.resource, goal.worker, goal.lease, catalogue, at);
    }
  }

  lemma NothingRunnable(t: Table, resource: string, worker: string, lease: string, catalogue: set<string>, at: Instant)
    requires forall id :: !Runnable(t, resource, catalogue, id)
    ensures TryClaimed(t, resource, worker, lease, GoneNext(t, resource, catalogue) == {}, at).1 == None
  {
    forall id | IsNext(t, resource, id) ensures id in GoneNext(t, resource, catalogue) {
      assert !Runnable(t, resource, catalogue, id);
    }
  }

  // ----- it happens -----

  lemma Extend(run: seq<Action>, a: Action)
    requires Possible(run) && Can(After(run), a)
    ensures Possible(run + [a]) && After(run + [a]) == Act(After(run), a)
  {
    assert (run + [a])[..|run|] == run;
  }

  function Fresh(command: string): Task {
    Task("test", command, "me", None, None, TaskQueued, None, "", "", 0, None, None)
  }

  function Failed(command: string): Task {
    Fresh(command).(state := TaskFailed, exitCode := Some(-1), failure := VANISHED, finishedAt := Some(0))
  }

  const DONE := Busy([], "", [], [], [])

  const CATALOGUE := {"unit"}

  lemma Submitted(w: World, id: string, command: string, thread: nat)
    requires thread !in w.threads && id != "" && id !in w.tasks && ValidName(command)
    ensures Act(w, Commit(thread, Submit(id, "test", command, "me", 0)))
            == Moved(w.(tasks := w.tasks[id := Fresh(command)]), thread, Busy([], "", ["test"], [], []))
  {
    assert ValidName("test");
  }

  lemma SignalledInVain(w: World, thread: nat)
    requires thread in w.threads && w.threads[thread] == Busy([], "", ["test"], [], []) && w.arrivals == NOBODY
    ensures Act(w, Signal(thread)) == Moved(w, thread, DONE)
  {
    assert ["test"][1..] == [];
  }

  lemma OneSubmitted(run: seq<Action>, id: string, command: string, thread: nat) returns (more: seq<Action>)
    requires Possible(run) && thread !in After(run).threads && id != "" && id !in After(run).tasks && ValidName(command)
    requires After(run).arrivals == NOBODY
    ensures Possible(more)
    ensures After(more) == Moved(After(run).(tasks := After(run).tasks[id := Fresh(command)]), thread, DONE)
  {
    var w := After(run);
    var submit := Commit(thread, Submit(id, "test", command, "me", 0));
    Submitted(w, id, command, thread);
    Extend(run, submit);
    SignalledInVain(Act(w, submit), thread);
    Extend(run + [submit], Signal(thread));
    more := run + [submit] + [Signal(thread)];
  }

  lemma OneWatching(run: seq<Action>, thread: nat, goal: Goal) returns (more: seq<Action>)
    requires Possible(run) && thread !in After(run).threads && BoardOf(After(run), goal) == NOBODY
    ensures Possible(more)
    ensures var board := Board(map[Key(goal) := 0], {}, 1);
      var w := Moved(After(run), thread, Waiter(goal, Looking(0)));
      After(more) == if goal.Outcome? then w.(outcomes := board) else w.(arrivals := board)
  {
    Extend(run, Begin(thread, goal));
    more := run + [Begin(thread, goal)];
    Extend(more, Watch(thread));
    more := more + [Watch(thread)];
  }

  /** One requester asleep on a task whose command is gone, and one claim about to come to it; another task can be run. */
  const ONE_PARKED := World(
    map["a" := Fresh("gone"), "b" := Fresh("unit")], Board(map["test" := 0], {}, 1), Board(map["a" := 0], {}, 1),
    map[1 := DONE, 2 := DONE, 3 := Waiter(Outcome("a"), Parked(0, false)),
      4 := Waiter(Claiming("test", "worker", "lease", false), Looking(0))], {})

  lemma OneParked() returns (run: seq<Action>)
    ensures Possible(run)
    ensures After(run) == ONE_PARKED
  {
    assert ValidName("gone") && ValidName("unit");
    run := OneSubmitted([], "a", "gone", 1);
    run := OneSubmitted(run, "b", "unit", 2);
    run := OneWatching(run, 3, Outcome("a"));
    Extend(run, Look(3, {}, 0));
    run := run + [Look(3, {}, 0)];
    run := OneWatching(run, 4, Claiming("test", "worker", "lease", false));
  }

  lemma OldestIsGone()
    ensures "a" in GoneNext(map["a" := Fresh("gone"), "b" := Fresh("unit")], "test", CATALOGUE)
  {
    var t := map["a" := Fresh("gone"), "b" := Fresh("unit")];
    assert Ordering.KeyLess(TaskKey("a", Fresh("gone")), TaskKey("b", Fresh("unit")));
    assert IsNext(t, "test", "a");
  }

  /**
   Both exceptions occur, in one state: a claim that skipped a task sleeps on although the next one's
   command is configured, and the skipped task's requester sleeps through its end.
   */
  lemma VanishedWakesNobody() returns (run: seq<Action>)
    ensures Possible(run)
    ensures Oversleeps(After(run), 3) && After(run).threads[3].goal.Outcome?
    ensures Oversleeps(After(run), 4) && After(run).threads[4].goal.Claiming?
    ensures exists id :: IsNext(After(run).tasks, After(run).threads[4].goal.resource, id)
                         && After(run).tasks[id].command in CATALOGUE
  {
    run := OneParked();
    var w, look := After(run), Look(4, CATALOGUE, 0);
    ClaimOversleeps(run);
    ClaimSkips(w);
    Extend(run, look);
    run := run + [look];
    OutcomeIsHeardOfUnlessVanished(run, 3);
  }

  lemma ClaimOversleeps(run: seq<Action>)
    requires Possible(run) && After(run) == ONE_PARKED
    ensures Oversleeps(Act(ONE_PARKED, Look(4, CATALOGUE, 0)), 4)
  {
    OldestIsGone();
    assert IsQueuedOn(ONE_PARKED.tasks, "test", "b");
    SkippingSleepsOverTheRest(run, 4, CATALOGUE, 0, "a");
  }

  lemma ClaimSkips(w: World)
    requires w == ONE_PARKED
    ensures var w' := Act(w, Look(4, CATALOGUE, 0));
      && w'.threads[3] == w.threads[3] && "a" in w'.vanished && !Printing(w', "a") && w'.outcomes == w.outcomes
      && IsNext(w'.tasks, "test", "b") && w'.tasks["b"].command == "unit"
      && w'.threads[4].Waiter? && w'.threads[4].goal == w.threads[4].goal
  {
    OldestIsGone();
    GoneIsQueued(w.tasks, "test", CATALOGUE, "a");
    GoneIsFailed(w.tasks, "test", "worker", "lease", CATALOGUE, 0, "a");
  }
}
