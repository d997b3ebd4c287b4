/**
 Dispatched work: the guarded statements on the task table, and what holds over every interleaving
 of them. The service reads a task before it writes one, in two steps; a run here is a sequence of
 the writes, so it covers every way those steps can interleave.
 */
module Tasks {
  import opened Core
  import opened Ordering

  const MAX_TASK_OUTPUT := 262144

  datatype TaskState = TaskQueued | TaskRunning | TaskSucceeded | TaskFailed | TaskCancelled
  {
    predicate Finished() {
      TaskSucceeded? || TaskFailed? || TaskCancelled?
    }
  }

  datatype Task = Task(
    resource: string,
    command: string,
    requester: string,
    worker: Option<string>,
    lease: Option<string>,
    state: TaskState,
    exitCode: Option<int>,
    output: string,
    failure: string,
    submittedAt: Instant,
    startedAt: Option<Instant>,
    finishedAt: Option<Instant>)

  type Table = map<string, Task>

  // ----- statements -----

  function TaskKey(id: string, task: Task): Key {
    Key(0, task.submittedAt, id)
  }

  predicate IsQueuedOn(t: Table, resource: string, id: string) {
    id in t && t[id].resource == resource && t[id].state == TaskQueued
  }

  /** The task that has been waiting longest on a resource. */
  predicate IsNext(t: Table, resource: string, id: string) {
    && IsQueuedOn(t, resource, id)
    && forall other <- t :: IsQueuedOn(t, resource, other) && other != id ==>
         KeyLess(TaskKey(id, t[id]), TaskKey(other, t[other]))
  }

  function RunningOn(tasks: Table, resource: string): set<string> {
    set id | id in tasks && tasks[id].resource == resource && tasks[id].state == TaskRunning
  }

  function Created(t: Table, id: string, resource: string, command: string, requester: string, at: Instant): Result<Table> {
    if id == "" || !ValidName(resource) || !ValidName(command) || requester == "" then Err(InvalidArgument)
    else if id in t then Err(AlreadyExists)
    else Ok(t[id := Task(resource, command, requester, None, None, TaskQueued, None, "", "", at, None, None)])
  }

  function Claimed(t: Table, id: string, worker: string, lease: string, at: Instant): Result<Table> {
    if id !in t || t[id].state != TaskQueued then Err(Conflict)
    else Ok(t[id := t[id].(state := TaskRunning, worker := Some(worker), lease := Some(lease), startedAt := Some(at))])
  }

  /** The last n characters, or all of them when there are fewer. */
  function LastOf(s: string, n: nat): string {
    if |s| <= n then s else s[|s| - n..]
  }

  function Appended(t: Table, id: string, chunk: string): Result<Table> {
    if chunk == "" then Ok(t)
    else if id !in t || t[id].state != TaskRunning then Err(Conflict)
    else Ok(t[id := t[id].(output := LastOf(t[id].output + chunk, MAX_TASK_OUTPUT))])
  }

  function Concluded(t: Table, id: string, state: TaskState, exitCode: int, failure: string, at: Instant): Result<Table> {
    if !state.Finished() then Err(InvalidArgument)
    else if id !in t || (t[id].state != TaskRunning && t[id].state != TaskQueued) then Err(Conflict)
    else Ok(t[id := t[id].(state := state, exitCode := Some(exitCode), failure := failure, finishedAt := Some(at))])
  }

  /** Puts one abandoned task back; a task that is no longer running is left alone. */
  function Requeued(t: Table, id: string, reason: string): Table {
    if id !in t || t[id].state != TaskRunning then t
    else t[id := t[id].(state := TaskQueued, worker := None, lease := None, startedAt := None, output := "", failure := reason)]
  }

  // ----- operations -----

  /** The state a worker's report leaves the task in. */
  function Verdict(exitCode: int, failure: string): TaskState {
    if exitCode != 0 || failure != "" then TaskFailed else TaskSucceeded
  }

  const VANISHED := "the command is no longer configured on this machine"

  /** Takes the task waiting longest; one whose command has vanished is failed and nothing is taken. */
  ghost function TryClaimed(t: Table, resource: string, worker: string, lease: string, configured: bool, at: Instant)
    : (Table, Option<string>)
  {
    if !exists id :: IsNext(t, resource, id) then (t, None)
    else
      var id :| IsNext(t, resource, id);
      if configured then (Claimed(t, id, worker, lease, at).value, Some(id))
      else (Concluded(t, id, TaskFailed, -1, VANISHED, at).value, None)
  }

  lemma NextIsUnique(t: Table, resource: string, i: string, j: string)
    requires IsNext(t, resource, i) && IsNext(t, resource, j)
    ensures i == j
  {
    KeyTrichotomy(TaskKey(i, t[i]), TaskKey(j, t[j]));
  }

  // ----- runs -----

  datatype Op =
    | Submit(id: string, resource: string, command: string, requester: string, at: Instant)
    | TryClaim(resource: string, worker: string, lease: string, configured: bool, at: Instant)
    | Append(id: string, chunk: string)
    | Report(id: string, exitCode: int, failure: string, at: Instant)   // the write of Complete
    | CallOff(id: string, at: Instant)                                  // the write of Cancel
    | Requeue(id: string, reason: string)                               // one write of ReleaseAbandoned

  const WITHDRAWN := "withdrawn by the requester"

  ghost function Step(t: Table, op: Op): Table {
    match op
    case Submit(id, resource, command, requester, at) =>
      (match Created(t, id, resource, command, requester, at) case Ok(t') => t' case Err(_) => t)
    case TryClaim(resource, worker, lease, configured, at) => TryClaimed(t, resource, worker, lease, configured, at).0
    case Append(id, chunk) => (match Appended(t, id, chunk) case Ok(t') => t' case Err(_) => t)
    case Report(id, exitCode, failure, at) =>
      (match Concluded(t, id, Verdict(exitCode, failure), exitCode, failure, at) case Ok(t') => t' case Err(_) => t)
    case CallOff(id, at) => (match Concluded(t, id, TaskCancelled, -1, WITHDRAWN, at) case Ok(t') => t' case Err(_) => t)
    case Requeue(id, reason) => Requeued(t, id, reason)
  }

  ghost function Exec(ops: seq<Op>): Table {
    if ops == [] then map[] else Step(Exec(ops[..|ops| - 1]), ops[|ops| - 1])
  }

  /** The step hands this task to a worker. */
  ghost predicate Claims(t: Table, op: Op, id: string) {
    op.TryClaim? && TryClaimed(t, op.resource, op.worker, op.lease, op.configured, op.at).1 == Some(id)
  }

  ghost predicate PutsBack(t: Table, op: Op, id: string) {
    op.Requeue? && op.id == id && id in t && t[id].state == TaskRunning
  }

  /** A claim takes the least queued (submitted_at, id) of its resource and records who has it. */
  lemma ClaimTakesTheOldest(t: Table, op: Op, id: string)
    requires Claims(t, op, id)
    ensures IsNext(t, op.resource, id)
    ensures Step(t, op) == t[id := t[id].(state := TaskRunning, worker := Some(op.worker), lease := Some(op.lease), startedAt := Some(op.at))]
  {
  }

  /** Conversely, whenever the oldest queued task's command is configured, a claim takes it. */
  lemma OldestIsTaken(t: Table, op: Op, id: string)
    requires op.TryClaim? && op.configured && IsNext(t, op.resource, id)
    ensures Claims(t, op, id)
  {
    var taken :| IsNext(t, op.resource, taken) && TryClaimed(t, op.resource, op.worker, op.lease, true, op.at).1 == Some(taken);
    NextIsUnique(t, op.resource, id, taken);
  }

  ghost predicate Formed(task: Task) {
    match task.state
    case TaskQueued =>
      task.worker.None? && task.lease.None? && task.startedAt.None? && task.exitCode.None? && task.finishedAt.None? && task.output == ""
    case TaskRunning =>
      task.worker.Some? && task.lease.Some? && task.startedAt.Some? && task.exitCode.None? && task.finishedAt.None?
    case TaskSucceeded => task.exitCode == Some(0) && task.failure == "" && task.finishedAt.Some?
    case TaskFailed => task.exitCode.Some? && (task.exitCode != Some(0) || task.failure != "") && task.finishedAt.Some?
    case TaskCancelled => task.exitCode == Some(-1) && task.finishedAt.Some?
  }

  lemma {:induction false} EveryTaskIsFormed(ops: seq<Op>, id: string)
    requires id in Exec(ops)
    ensures Formed(Exec(ops)[id])
  {
    if ops != [] && id in Exec(ops[..|ops| - 1]) {
      EveryTaskIsFormed(ops[..|ops| - 1], id);
    }
  }

  lemma StepKeepsTasks(t: Table, op: Op, id: string)
    requires id in t
    ensures id in Step(t, op)
    ensures t[id].state.Finished() ==> Step(t, op)[id] == t[id]
    ensures t[id].state != TaskQueued && !PutsBack(t, op, id) ==> Step(t, op)[id].state != TaskQueued
    ensures Step(t, op)[id].resource == t[id].resource && Step(t, op)[id].submittedAt == t[id].submittedAt
  {
  }

  /** A finished task never changes again. */
  lemma {:induction false} FinishedIsFinal(ops: seq<Op>, more: seq<Op>, id: string)
    requires id in Exec(ops) && Exec(ops)[id].state.Finished()
    ensures id in Exec(ops + more) && Exec(ops + more)[id] == Exec(ops)[id]
  {
    if more == [] {
      assert ops + more == ops;
    } else {
      var prefix := more[..|more| - 1];
      assert (ops + more)[..|ops + more| - 1] == ops + prefix;
      FinishedIsFinal(ops, prefix, id);
      StepKeepsTasks(Exec(ops + prefix), more[|more| - 1], id);
    }
  }

  ghost predicate ClaimsAt(ops: seq<Op>, i: nat, id: string) {
    i < |ops| && Claims(Exec(ops[..i]), ops[i], id)
  }

  ghost predicate PutsBackAt(ops: seq<Op>, i: nat, id: string) {
    i < |ops| && PutsBack(Exec(ops[..i]), ops[i], id)
  }

  lemma {:induction false} StaysTaken(ops: seq<Op>, i: nat, j: nat, id: string)
    requires i < j <= |ops| && ClaimsAt(ops, i, id)
    requires forall k :: i < k < j ==> !PutsBackAt(ops, k, id)
    ensures id in Exec(ops[..j]) && Exec(ops[..j])[id].state != TaskQueued
    decreases j
  {
    assert ops[..j][..j - 1] == ops[..j - 1];
    if j == i + 1 {
      ClaimTakesTheOldest(Exec(ops[..i]), ops[i], id);
    } else {
      StaysTaken(ops, i, j - 1, id);
      assert !PutsBackAt(ops, j - 1, id);
      StepKeepsTasks(Exec(ops[..j - 1]), ops[j - 1], id);
    }
  }

  /** Two claims of one task are always separated by its being put back. */
  lemma ClaimsAreSeparated(ops: seq<Op>, i: nat, j: nat, id: string)
    requires i < j && ClaimsAt(ops, i, id) && ClaimsAt(ops, j, id)
    ensures exists k :: i < k < j && PutsBackAt(ops, k, id)
  {
    if forall k :: i < k < j ==> !PutsBackAt(ops, k, id) {
      StaysTaken(ops, i, j, id);
      ClaimTakesTheOldest(Exec(ops[..j]), ops[j], id);
      assert false;
    }
  }

  // ----- output -----

  predicate Running(t: Table, id: string) {
    id in t && t[id].state == TaskRunning
  }

  /** Output is taken exactly while the task runs; nothing at all is always taken. */
  lemma OutputIsTakenWhileRunning(t: Table, id: string, chunk: string)
    ensures Appended(t, id, chunk).Ok? <==> chunk == "" || Running(t, id)
    ensures Appended(t, id, chunk).Ok? ==>
      var t' := Step(t, Append(id, chunk));
      && t'.Keys == t.Keys
      && (forall other <- t :: other != id ==> t'[other] == t[other])
      && (id in t ==> t'[id] == t[id].(output := t'[id].output))
  {
  }

  /** Everything the task's worker printed since the task was last handed out, uncut. */
  ghost function Printed(ops: seq<Op>, id: string): string {
    if ops == [] then ""
    else
      var prefix := ops[..|ops| - 1];
      var last := ops[|ops| - 1];
      if last.Append? && last.id == id && Running(Exec(prefix), id) then Printed(prefix, id) + last.chunk
      else if PutsBack(Exec(prefix), last, id) then ""
      else Printed(prefix, id)
  }

  /** Cutting what was already cut loses nothing more. */
  lemma CutTwice(log: string, chunk: string, n: nat)
    ensures LastOf(LastOf(log, n) + chunk, n) == LastOf(log + chunk, n)
  {
  }

  /** The stored output is the end of the log, however often it was cut on the way. */
  lemma {:induction false} OutputIsEndOfLog(ops: seq<Op>, id: string)
    ensures id in Exec(ops) ==> Exec(ops)[id].output == LastOf(Printed(ops, id), MAX_TASK_OUTPUT)
    ensures id !in Exec(ops) ==> Printed(ops, id) == ""
  {
    if ops != [] {
      var prefix := ops[..|ops| - 1];
      var last := ops[|ops| - 1];
      OutputIsEndOfLog(prefix, id);
      if last.Append? && last.id == id {
        CutTwice(Printed(prefix, id), last.chunk, MAX_TASK_OUTPUT);
      }
    }
  }

  /** In so many words: it is the whole log, or its last 262144 characters. */
  lemma OutputIsSuffix(ops: seq<Op>, id: string)
    requires id in Exec(ops)
    ensures var log, output := Printed(ops, id), Exec(ops)[id].output;
      && |output| == (if |log| <= 262144 then |log| else 262144)
      && output == log[|log| - |output|..]
  {
    OutputIsEndOfLog(ops, id);
  }

  /** Two chunks one after the other leave the end of what was there, the first and the second. */
  lemma TwoChunks(t: Table, id: string, first: string, second: string)
    requires Running(t, id)
    ensures var t' := Step(Step(t, Append(id, first)), Append(id, second));
      var all := t[id].output + first + second;
      Running(t', id) && (first + second != "" ==>
        t'[id].output == if |all| <= 262144 then all else all[|all| - 262144..])
  {
    var all := t[id].output + first + second;
    if first == "" {
      assert all == t[id].output + second;
    } else if second == "" {
      assert all == t[id].output + first;
    } else {
      CutTwice(t[id].output + first, second, MAX_TASK_OUTPUT);
    }
  }

  // ----- what the columns say -----

  /** A submission is accepted exactly with names and identifiers in place and a new one of its own. */
  lemma SubmissionQueues(t: Table, id: string, resource: string, command: string, requester: string, at: Instant)
    ensures var op := Submit(id, resource, command, requester, at);
      Created(t, id, resource, command, requester, at).Ok?
      <==> id != "" && id !in t && ValidName(resource) && ValidName(command) && requester != ""
    ensures Created(t, id, resource, command, requester, at) == Err(AlreadyExists)
      <==> id != "" && id in t && ValidName(resource) && ValidName(command) && requester != ""
    ensures var r := Created(t, id, resource, command, requester, at); r.Err? ==> r.error == AlreadyExists || r.error == InvalidArgument
    ensures Created(t, id, resource, command, requester, at).Ok? ==>
      var t' := Step(t, Submit(id, resource, command, requester, at));
      && t'.Keys == t.Keys + {id} && (forall other <- t :: t'[other] == t[other])
      && (t'[id].resource, t'[id].command, t'[id].requester, t'[id].submittedAt, t'[id].state, t'[id].output, t'[id].failure)
         == (resource, command, requester, at, TaskQueued, "", "")
  {
  }

  /** Step i of the run submitted this task. */
  ghost predicate SubmittedAt(ops: seq<Op>, i: int, id: string) {
    0 <= i < |ops| && ops[i].Submit? && ops[i].id == id && id !in Exec(ops[..i]) && id in Exec(ops[..i + 1])
  }

  /** In every run a task is what was submitted, and its time that of its submission. */
  lemma {:induction false} TaskIsAsSubmitted(ops: seq<Op>, id: string) returns (i: nat)
    requires id in Exec(ops)
    ensures SubmittedAt(ops, i, id)
    ensures var task := Exec(ops)[id];
      (task.resource, task.command, task.requester, task.submittedAt)
      == (ops[i].resource, ops[i].command, ops[i].requester, ops[i].at)
  {
    var before := ops[..|ops| - 1];
    assert forall k :: 0 <= k <= |before| ==> before[..k] == ops[..k];
    if id in Exec(before) {
      i := TaskIsAsSubmitted(before, id);
      StepKeepsSubmission(Exec(before), ops[|ops| - 1], id);
    } else {
      i := |before|;
      assert ops[..i + 1] == ops;
      NewTaskIsSubmitted(Exec(before), ops[i], id);
    }
  }

  lemma StepKeepsSubmission(t: Table, op: Op, id: string)
    requires id in t
    ensures id in Step(t, op)
    ensures var task := Step(t, op)[id];
      (task.resource, task.command, task.requester, task.submittedAt)
      == (t[id].resource, t[id].command, t[id].requester, t[id].submittedAt)
  {
  }

  lemma NewTaskIsSubmitted(t: Table, op: Op, id: string)
    requires id in Step(t, op) && id !in t
    ensures op.Submit? && op.id == id
    ensures var task := Step(t, op)[id];
      (task.resource, task.command, task.requester, task.submittedAt) == (op.resource, op.command, op.requester, op.at)
  {
  }

  /** First come, first served: of the tasks queued on its resource a claim takes one submitted no later than any other. */
  lemma FirstSubmittedIsTaken(ops: seq<Op>, op: Op, id: string, other: string) returns (i: nat, j: nat)
    requires Claims(Exec(ops), op, id) && IsQueuedOn(Exec(ops), op.resource, other)
    ensures SubmittedAt(ops, i, id) && SubmittedAt(ops, j, other)
    ensures ops[i].resource == op.resource && ops[i].at <= ops[j].at
    ensures ops[i].at == ops[j].at ==> id == other || LexLess(id, other)
  {
    ClaimTakesTheOldest(Exec(ops), op, id);
    i := TaskIsAsSubmitted(ops, id);
    j := TaskIsAsSubmitted(ops, other);
  }

  /** A report is kept as it was made, exactly while the task is queued or running; so is a withdrawal. */
  lemma ReportIsKept(t: Table, id: string, exitCode: int, failure: string, at: Instant)
    ensures var t' := Step(t, Report(id, exitCode, failure, at));
      if id in t && (t[id].state == TaskQueued || t[id].state == TaskRunning) then
        && t'.Keys == t.Keys && (forall other <- t :: other != id ==> t'[other] == t[other])
        && (t'[id].state == TaskSucceeded <==> exitCode == 0 && failure == "")
        && (t'[id].state == TaskFailed <==> exitCode != 0 || failure != "")
        && t'[id] == t[id].(state := t'[id].state, exitCode := Some(exitCode), failure := failure, finishedAt := Some(at))
      else t' == t
    ensures var t' := Step(t, CallOff(id, at));
      if id in t && (t[id].state == TaskQueued || t[id].state == TaskRunning) then
        t' == t[id := t[id].(state := TaskCancelled, exitCode := Some(-1), failure := WITHDRAWN, finishedAt := Some(at))]
      else t' == t
  {
  }

  /** Putting a task back clears what its run left, keeps what was asked for and says why; it touches only running tasks. */
  lemma RequeueClears(t: Table, id: string, reason: string)
    ensures var t' := Step(t, Requeue(id, reason));
      if Running(t, id) then
        && t'.Keys == t.Keys && (forall other <- t :: other != id ==> t'[other] == t[other])
        && t'[id] == t[id].(state := TaskQueued, worker := None, lease := None, startedAt := None, output := "", failure := reason)
      else t' == t
  {
  }

  /** Every guarded write that comes too late is a conflict. */
  lemma LateWritesConflict(t: Table, id: string, worker: string, lease: string, chunk: string, state: TaskState,
                           exitCode: int, failure: string, at: Instant)
    ensures Claimed(t, id, worker, lease, at) == Err(Conflict) <==> !(id in t && t[id].state == TaskQueued)
    ensures Claimed(t, id, worker, lease, at).Ok? <==> id in t && t[id].state == TaskQueued
    ensures Appended(t, id, chunk) == Err(Conflict) <==> chunk != "" && !Running(t, id)
    ensures state.Finished() ==>
      (Concluded(t, id, state, exitCode, failure, at) == Err(Conflict)
       <==> !(id in t && (t[id].state == TaskQueued || t[id].state == TaskRunning)))
    ensures !state.Finished() ==> Concluded(t, id, state, exitCode, failure, at) == Err(InvalidArgument)
  {
  }
}
