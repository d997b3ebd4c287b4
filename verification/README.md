# lac, modelled and verified

lac is a coordinator for agents sharing one machine. It hands out limited slots through priority
queues, dispatches commands to workers, delivers messages and follows pull requests. This project
models the state machines behind those services in Dafny and proves what they promise over every
run. `dafny verify dfyconfig.toml` checks all of it.

The store is a set of maps, a transaction is one step that either has its whole effect or none, and
the clock is a number of microseconds that never goes back. Where the program changes rows,
channels, buffers or loop variables in place there is a class or a method that does so, and its
contract ties what it leaves behind to a function of what it found. The theorems are about those
functions, over arbitrary sequences of steps.

| files | what they model |
|---|---|
| `Core`, `Ordering` | shared vocabulary; identifier order and ordered queries |
| `LeaseTables`, `LeaseStore`, `LeasingService` | resources, queue entries, leases and the audit log; their statements and transactions |
| `LeasingRuns`, `LeasingInvariants` | capacity, fairness, the pairing of entries with leases and the accounts over whole runs |
| `LeaseTerms`, `AuditLog` | what each leasing operation demands and leaves, how long a lease lasts, and that the audit log is true |
| `Broadcast`, `Wakeup`, `Acquisitions` | channels closed to broadcast a change, goroutines that watch, look, park, commit and signal in any interleaving, and what one acquisition comes to |
| `Tasks`, `DispatchService`, `Workers`, `Claims` | the task table, the dispatch service, workers that run tasks on leased slots, and what holds of claims whatever the callers do |
| `Arrivals` | goroutines that wait for queued work, claim it or await a task's end, and those that signal them |
| `RpcServer` | sessions, the semaphore, the in-flight counter, the stop flag and replies |
| `PrWatch`, `CommentFeed` | polling with backoff, outage events, the last good snapshot and the comment feed |
| `Identifiers` | time-ordered identifiers and their base32 encoding |
| `Inbox`, `MessagingService` | durable messages, acknowledgement, pruning and draining |
| `Settle` | the loop that reloads a configuration file once it has stopped changing |
| `Split`, `Reference` | splitting text for a chat, and pull request references |

## Where the code and its description differ

The model follows the code.

- Pruning: the comment on `PruneExpired` keeps a message for the retention period after it was
  acknowledged. The query compares the creation time, so an old message goes as soon as it is
  acknowledged (`Inbox.PruneRemovesExactly`, `Inbox.RetentionIsNotFromAcknowledgement`).
- Identifiers: they sort by time only below 2^48 milliseconds, because the two highest bytes of the
  time are dropped. The order is that of the low 48 bits (`Identifiers.SortByTime`).
- Backoff: with an interval above the cap the first wait is the interval itself, not the cap, and an
  interval below four nanoseconds makes the random source panic (`PrWatch.BackoffIsCappedDoubling`,
  `PrWatch.JitterNeedsFour`).
- Splitting: parts can add up to the text although it contains newlines. The exact condition is in
  `Split.SplitLosesNothingExactlyWhen`.
- Waking: a finished task is said to wake its requester at once. A task failed because its command
  is gone signals nobody, and the claim that failed it can go to sleep although more work is queued;
  both wait for the timer (`Arrivals.OutcomeIsHeardOfUnlessVanished`, `Arrivals.SkippingSleepsOverTheRest`,
  `Arrivals.VanishedWakesNobody`).
- Claiming: a lease is verified before the claiming transaction and not looked at again, so the daemon
  by itself does not limit running tasks to slots (`Claims.ClaimIsCoveredExactly`,
  `Claims.OneLeaseCanBackTwoClaims`, `Claims.LapsedLeaseCanBackAClaim`). With workers that follow their
  own order, and no lease lost while a task runs, it does (`Workers.RunningFitsLeases`).
- Pasting: the parser is said to accept a full URL from a browser. It refuses one with a fragment, such
  as the link to a comment (`Reference.PastedRoundTrip`, `Reference.FragmentIsRefused`).

## Model

| member | source | states |
|---|---|---|
| `LeaseStore.Store.Append` | internal/store/sqlite/audit.go:19-30 | A record is appended exactly when it names an actor; otherwise nothing changes and the error is reported. |
| `LeaseStore.Store.InsertEntry` | internal/store/sqlite/leases.go:21-33 | An entry is stored unless its identifier is taken or a required field is missing, and each refusal has its own error. |
| `LeaseStore.Store.ResolveEntry` | internal/store/sqlite/leases.go:80-104 | Only a waiting entry is resolved, only to a final state, and a second resolution is a conflict. |
| `LeaseStore.Store.CreateLease` | internal/store/sqlite/leases.go:123-139 | A lease is stored unless its identifier is taken or it would expire no later than it starts. |
| `LeaseStore.Store.ExtendLease` | internal/store/sqlite/leases.go:184-213 | Only a lease still active now gets a new expiry; a missing one and a lapsed one are told apart. |
| `LeaseStore.Store.EndLease` | internal/store/sqlite/leases.go:217-224 | Ending a lease twice keeps the first release time. |
| `LeaseStore.Store.WaitingInOrder` | internal/store/sqlite/leases.go:48-61 | Returns every waiting entry of the resource once, in service order: highest priority, then earliest, then least identifier. |
| `LeaseTables.LineIsUnique` | internal/store/sqlite/leases.go:48-61 | That order leaves no choice: two listings of one queue are the same. |
| `LeaseTables.LineIsInServiceOrder` | internal/store/sqlite/leases.go:48-61 | Of two waiting entries the earlier in the queue has the higher priority, or asked earlier, or has the lesser identifier. |
| `LeaseTables.HeadIsFirst` | internal/service/leasing/leasing.go:313-321 | An entry is at the head of its queue exactly when it comes first in that listing. |
| `LeasingService.Service.Define` | internal/service/leasing/leasing.go:66-85 | Configures a resource, defaulting and rounding its time to live, and wakes its waiters exactly when it was written. |
| `LeasingService.Service.Join` | internal/service/leasing/leasing.go:214-236 | Stores a waiting entry and its record, or neither and the reason: unknown resource, missing field or identifier taken. |
| `LeasingService.Service.TryGrant` | internal/service/leasing/leasing.go:283-357 | Lease, entry and record change together exactly when the entry is granted, waiters are woken exactly then, and every failure leaves the tables as they were. |
| `LeasingService.Service.Renew` | internal/service/leasing/leasing.go:360-397 | Extends the caller's own active lease with a record, or changes nothing and says why. |
| `LeasingService.Service.Release` | internal/service/leasing/leasing.go:401-449 | Gives a slot back with a record and wakes the resource, or changes nothing; only force lets somebody else do it. |
| `LeasingService.Service.Cancel` | internal/service/leasing/leasing.go:452-504 | Withdraws a waiting entry with a record and wakes the resource, or changes nothing. |
| `LeasingService.Service.Abandon` | internal/service/leasing/leasing.go:680-700 | Takes an entry out of the queue without a record, and wakes the resource only if it was still waiting. |
| `LeasingService.Service.ReleaseEverythingHeldBy` | internal/service/leasing/leasing.go:510-555 | Ends all the agent's active leases with a record each and cancels its waiting entries without one, wakes everyone, and returns the number of leases; a failure undoes all of it. |
| `LeasingService.Service.FreeResource` | internal/service/leasing/leasing.go:559-595 | Ends every active lease on the resource with a record each and counts them, or undoes everything. |
| `LeasingService.Service.ClearQueue` | internal/service/leasing/leasing.go:599-636 | Cancels every waiting entry of the resource, in service order, with a record each and counts them, or undoes everything. |
| `LeasingService.Service.CancelAll` | internal/service/leasing/leasing.go:615-630 | Its loop: one cancelled entry and one record for each row, in row order, and a missing actor is an error. |
| `LeasingService.Service.ReapExpired` | internal/service/leasing/leasing.go:639-676 | Ends exactly the leases that ran out, and wakes everyone exactly when there were any. |
| `LeasingService.Service.EndAll` | internal/service/leasing/leasing.go:520-536 | The shared loop: one ended lease and one record for each row, in row order. |
| `LeasingService.Service.EndOneMore` | internal/service/leasing/leasing.go:520-536 | Ending the rows one at a time, whatever their order, is ending them all at once. |
| `LeasingRuns.StepRaisesOnlyBelowCapacity` | internal/service/leasing/leasing.go:289-346 | No operation adds more than one active lease, and only a grant below capacity adds one, although bulk operations use a clock reading taken earlier. |
| `LeasingRuns.OnlyLoweringOverfills` | internal/store/sqlite/resources.go:16-40 | A resource within its capacity goes over it in one step only through a definition that lowers the capacity. |
| `LeasingRuns.FullNeverGrows` | internal/service/leasing/leasing.go:303-311 | While a resource is at or over capacity no step raises its number of active leases. |
| `LeasingRuns.CapacityHolds` | internal/store/sqlite/leases.go:108-121 | Over every run from any state the active leases never exceed the larger of the capacity and the number active at the last definition. |
| `LeasingRuns.CapacityNeverExceeded` | internal/service/leasing/leasing.go:289-346 | Starting empty, if no definition lowers a capacity, active leases never exceed it. |
| `LeasingRuns.StepKeepsEntries` | internal/store/sqlite/leases.go:80-104 | No step changes an entry's identity or its place in the order, or reopens a resolved one; only its own grant grants it. |
| `LeasingRuns.OvertakingIsBounded` | internal/service/leasing/leasing.go:313-321 | While an entry waits, the grants to others on its resource plus those still ahead number at most those ahead at the start plus later arrivals ranked before it. |
| `LeasingInvariants.StepPreserves` | internal/service/leasing/leasing.go:289-346 | Every operation keeps the correspondence between granted entries and leases. |
| `LeasingInvariants.ReachableIsConsistent` | internal/service/leasing/leasing.go:289-346 | Every reachable state has resources within their limits, well-formed entries, and leases paired one to one with granted entries. |
| `LeasingInvariants.GrantedExactlyWhenLeased` | internal/service/leasing/leasing.go:289-346 | In every reachable state an entry is granted exactly when one lease names it, and otherwise none does. |
| `LeasingInvariants.FinalRowsNeverChange` | internal/store/sqlite/leases.go:80-104 | Over every run a resolved entry and a released lease never change again. |
| `LeasingInvariants.ExactlyOneCanBeServed` | internal/service/leasing/leasing.go:289-346 | In every reachable state, when a resource has room and somebody waiting, exactly one of the waiting entries is granted if it tries. |
| `LeasingInvariants.HeldByIsCleared` | internal/service/leasing/leasing.go:510-555 | Afterwards the agent holds no active lease at any instant from the commit on and waits nowhere; every other row is untouched and the count is the number of leases changed. |
| `LeasingInvariants.ResourceIsFreed` | internal/service/leasing/leasing.go:559-595 | Afterwards no lease on the resource is active at any instant from the commit on; the rest is untouched and the count is exact. |
| `LeasingInvariants.QueueIsCleared` | internal/service/leasing/leasing.go:599-636 | Afterwards nothing waits on the resource, each cancelled entry has its record, and no other row moved. |
| `LeasingInvariants.ReaperTakesOnlyExpired` | internal/service/leasing/leasing.go:639-676 | The reaper changes exactly the leases that had run out at its reading of the clock, none of them active now. |
| `LeasingInvariants.EveryLeaseIsAccountedFor` | internal/service/leasing/leasing.go:340-346 | In every reachable state a lease has exactly one grant record, and is released exactly when a released or expired record names it. |
| `LeaseTerms.RenewalLasts` | internal/service/leasing/leasing.go:360-397 | In every reachable state a renewal succeeds exactly for the holder of an active lease; from then on the lease is active for exactly one time to live of its resource, one record is added, and nothing else is different. |
| `LeaseTerms.GrantLasts` | internal/service/leasing/leasing.go:323-346 | A granted lease belongs to whoever waited and is active from now on for exactly one time to live; entry and log say so, and no other row is different. |
| `LeaseTerms.KeptUpStaysActive` | internal/service/leasing/leasing.go:360-397 | Over every run a lease stays active while its holder's renewals come less than one time to live apart and no release or remedy ends it, reapers with an old clock reading and redefinitions included. |
| `LeaseTerms.AttemptIsAnswered` | internal/service/leasing/leasing.go:289-321 | An attempt is answered exactly while its entry waits, unless its grant would reuse an identifier; without a grant it changes nothing. |
| `LeaseTerms.ReleaseEnds` | internal/service/leasing/leasing.go:401-449 | A release succeeds exactly for the holder, or with force for any named actor; the lease is over for good, its first release time stands, and nothing else is different but the record. |
| `LeaseTerms.CancelWithdraws` | internal/service/leasing/leasing.go:452-504 | A withdrawal succeeds exactly while the entry waits, for whoever waits or with force for any named actor; only that entry is different, dated now, and recorded. |
| `LeaseTerms.JoinWaits` | internal/service/leasing/leasing.go:214-229 | Joining succeeds exactly on an existing resource under a new identifier and a name, and adds just that waiting entry with its record. |
| `LeaseTerms.AbandonResolves` | internal/service/leasing/leasing.go:680-700 | Giving up resolves exactly an entry that still waits, and records nothing. |
| `LeaseTerms.DefineReconfigures` | internal/service/leasing/leasing.go:66-85 | A definition succeeds exactly with a valid name, a capacity from 1 to 1024 and at least a microsecond to live, which it rounds down; leases, entries and other resources are undisturbed. |
| `LeaseTerms.RenewalErrors` | internal/service/leasing/leasing.go:363-383 | A renewal's error says exactly whether the lease is unknown, somebody else's or over. |
| `LeaseTerms.ReleaseErrors` | internal/service/leasing/leasing.go:401-449 | A release's error says exactly whether the lease is unknown, somebody else's or no actor is named. |
| `LeaseTerms.CancelErrors` | internal/service/leasing/leasing.go:462-488 | A withdrawal's error says exactly whether the entry is unknown, somebody else's or already resolved. |
| `LeaseTerms.JoinAndDefineErrors` | internal/service/leasing/leasing.go:66-236 | Joining says exactly whether the resource is unknown, a field missing or the identifier taken; a definition that fails is always an invalid argument. |
| `LeaseTerms.AttemptErrors` | internal/service/leasing/leasing.go:289-311 | An attempt says exactly whether its entry is unknown or waits no longer. |
| `LeaseTerms.RemediesSucceed` | internal/service/leasing/leasing.go:510-676 | An operator's remedy fails exactly for an unknown resource, or without an actor while there is something to end; the reaper never fails. |
| `LeaseTerms.BulkEndsAreRecorded` | internal/service/leasing/leasing.go:520-536 | Each lease a bulk operation ends is dated with its reading of the clock and has its record with the right actor, action and resource. |
| `LeaseTerms.BulkCancelsAreDated` | internal/service/leasing/leasing.go:520-640 | Each entry a bulk operation cancels keeps everything but its state and is dated with the operation's reading of the clock. |
| `AuditLog.NothingIsMadeUp` | internal/service/leasing/leasing.go:340-346 | In every reachable state each audit record names an actor and what it says is true of the tables: who holds or held what, since when, and how it ended. |
| `Broadcast.Waiters.Watch` | internal/service/leasing/waiters.go:23-34 | Returns the resource's open channel, making one if there is none. |
| `Broadcast.Waiters.Signal` | internal/service/leasing/waiters.go:37-45 | Closes the resource's channel and forgets it; other resources keep theirs. |
| `Broadcast.Waiters.SignalAll` | internal/service/leasing/waiters.go:49-57 | Closes every channel, one at a time, and forgets them all. |
| `Broadcast.SignalClosesWhatItCovers` | internal/service/leasing/waiters.go:23-57 | A signal closes a resource's channel exactly when it covers the resource, and the next watch returns one that is still open. |
| `Wakeup.ActKeepsSound` | internal/service/leasing/leasing.go:247-279 | Every step of every goroutine keeps the invariant: a channel taken is closed or is the next to be closed, and whoever is parked is parked rightly or has a signal coming. |
| `Wakeup.QuietStepsKeepBlocked` | internal/service/leasing/leasing.go:289-321 | A change that is not announced to a resource cannot let an entry blocked there be granted. |
| `Wakeup.NoLostWakeup` | internal/service/leasing/leasing.go:250-278 | In every interleaving a goroutine parked on an open channel, with its entry grantable or no longer waiting, has a committed and unsignalled change coming; otherwise the only room is a lease that passed its expiry. |
| `Wakeup.SignalWakesEveryone` | internal/service/leasing/waiters.go:36-57 | A signal makes every goroutine parked on a resource it covers able to wake. |
| `Wakeup.AcquireReturnsItsLease` | internal/service/leasing/leasing.go:214-243 | An acquire that returned a lease left its entry granted, named by that lease alone. |
| `Wakeup.FailedAcquireHoldsNothing` | internal/service/leasing/leasing.go:232-242 | An acquire that failed left its entry cancelled or expired with no lease naming it. |
| `Acquisitions.LookDecides` | internal/service/leasing/leasing.go:254-278 | For the acquisition a run started with or without waiting: a look with a slot returns it; failed, the entry is to be cancelled; answered without a slot, the thread sleeps on the channel it took, or, not waiting, the entry is to expire. |
| `Acquisitions.NoWaitNeverSleeps` | internal/service/leasing/leasing.go:265-268 | In every run an acquisition started without waiting is never parked. |
| `Acquisitions.SleeperWatchesAgain` | internal/service/leasing/leasing.go:271-278 | A closed channel or the timer sends a sleeper back to watch and look again, its caller leaving makes it give up, and nothing else moves it. |
| `Acquisitions.GivesUpForAReason` | internal/service/leasing/leasing.go:232-242 | An acquisition gives up only because its look failed or, waiting, its caller left, and then its entry is to be cancelled; or, not waiting, because its look was answered without a slot. |
| `Acquisitions.GivingUpResolves` | internal/service/leasing/leasing.go:680-700 | Giving up resolves an entry that still waits the way its reason says: expired only without waiting, cancelled otherwise. |
| `Acquisitions.NoWaitExpires` | internal/service/leasing/leasing.go:680-690 | Told there is no slot, an acquisition that does not wait leaves its entry expired unless somebody else resolved it first. |
| `Acquisitions.ExpiredWasToldNo` | internal/service/leasing/leasing.go:680-690 | In every run an entry has expired only if its acquisition did not wait and was told there was no slot. |
| `Acquisitions.WakesOnlyWhatItIsAbout` | internal/service/leasing/leasing.go:323-356 | A commit wakes everyone only when it cleared out an agent or reaped something; otherwise it wakes one resource, one it defined, freed, cleared, released or whose queue it changed. |
| `DispatchService.Service.Submit` | internal/service/dispatch/dispatch.go:112-142 | An unknown command or a refused directory stores nothing; otherwise the task is queued on its command's resource, whose waiters are woken exactly when it was stored. |
| `DispatchService.Service.Create` | internal/store/sqlite/tasks.go:22-36 | A task is stored queued, without worker, lease or start time, or refused with the right error. |
| `DispatchService.Service.NextQueued` | internal/store/sqlite/tasks.go:51-67 | Finds the queued task of the resource with the least (submitted_at, id), or nothing exactly when none is queued. |
| `DispatchService.Service.Claim` | internal/store/sqlite/tasks.go:71-92 | Only a queued task is claimed; the guard makes every other claim a conflict. |
| `DispatchService.Service.Finish` | internal/store/sqlite/tasks.go:123-150 | A queued or running task is given a final state, and nothing else is. |
| `DispatchService.Service.TryClaim` | internal/service/dispatch/dispatch.go:265-325 | Takes the task waiting longest; a task whose command vanished is failed, and nothing is taken. |
| `DispatchService.Service.AppendOutput` | internal/service/dispatch/dispatch.go:350-366 | Only the task's own worker adds output, only while it runs; the stored end is kept, and whoever waits for the task is woken exactly on success. |
| `DispatchService.Service.Complete` | internal/service/dispatch/dispatch.go:369-394 | Only the task's own worker finishes it; it succeeded exactly with exit code zero and no failure text, and its requester is woken exactly on success. |
| `DispatchService.Service.Cancel` | internal/service/dispatch/dispatch.go:398-420 | Only the requester cancels a task, only while it is queued, and whoever waits for it is woken exactly on success. |
| `DispatchService.Service.ReleaseAbandoned` | internal/service/dispatch/dispatch.go:470-483 | Every running task of the worker, and no other, is queued again without worker, lease, start time or output; the count is exact, and just their resources' waiters are woken. |
| `Tasks.OldestIsTaken` | internal/service/dispatch/dispatch.go:265-325 | Conversely, whenever the oldest queued task's command is configured, a claim takes exactly it. |
| `Tasks.EveryTaskIsFormed` | internal/core/task.go:35-102 | In every reachable state a queued task has no worker, lease or start time, a running one has all three, and a succeeded one has exit code zero and no failure text. |
| `Tasks.FinishedIsFinal` | internal/store/sqlite/tasks.go:123-150 | Over every run a finished task never changes again. |
| `Tasks.ClaimsAreSeparated` | internal/store/sqlite/tasks.go:186-211 | Two claims of one task always have a requeueing of it between them. |
| `Tasks.CutTwice` | internal/store/sqlite/tasks.go:95-121 | Truncating text whose front was already truncated equals truncating once. |
| `Tasks.OutputIsEndOfLog` | internal/store/sqlite/tasks.go:95-121 | After any run the stored output is the last MaxTaskOutput characters of everything accepted since the task was last requeued. |
| `Tasks.OutputIsSuffix` | internal/store/sqlite/tasks.go:95-121 | In so many words: the whole log, or its last 262144 characters. |
| `Tasks.OutputIsTakenWhileRunning` | internal/store/sqlite/tasks.go:95-121 | Output is accepted exactly while the task exists and runs, an empty chunk always, and it changes nothing but the output. |
| `Tasks.TwoChunks` | internal/store/sqlite/tasks.go:95-121 | Two chunks sent to a running task leave the end of what was there, the first and the second. |
| `Tasks.TaskIsAsSubmitted` | internal/service/dispatch/dispatch.go:112-142 | In every run a task's resource, command, requester and time are those of the one submission that made it. |
| `Tasks.SubmissionQueues` | internal/store/sqlite/tasks.go:14-33 | A task is stored exactly under a new identifier with its names in place, as submitted and with nothing else changed; otherwise the error says which of the two was wrong. |
| `Tasks.FirstSubmittedIsTaken` | internal/store/sqlite/tasks.go:51-92 | First come, first served: a claimed task was submitted no later than any other queued on the resource. |
| `Tasks.ReportIsKept` | internal/service/dispatch/dispatch.go:369-394 | A report or withdrawal is kept exactly while the task is queued or running; the task succeeded exactly with exit code zero and no failure text. |
| `Tasks.RequeueClears` | internal/store/sqlite/tasks.go:186-211 | Putting a task back clears worker, lease, start and output and keeps the reason, and touches only running tasks. |
| `Tasks.LateWritesConflict` | internal/store/sqlite/tasks.go:75-150 | A claim conflicts exactly unless the task is queued, output exactly unless it runs, an outcome exactly unless it is queued or running. |
| `Workers.RunningTasksHoldSlots` | cmd/lac/worker.go:77-127 | When no lease ends between its check and its worker's report, each running task records an active lease on its resource held by its worker, and no two record the same. |
| `Workers.RunningFitsLeases` | cmd/lac/worker.go:77-127 | Then the running tasks on a resource never outnumber its active leases. |
| `Workers.RunningFitsCapacity` | cmd/lac/worker.go:77-127 | Then they also stay within the larger of its capacity and the leases active when it was last defined. |
| `Workers.NothingLeaks` | cmd/lac/worker.go:77-128 | In every run a lease a worker took is in its hands or released, so one waiting for work or for a slot occupies none. |
| `Workers.ReportIsForItsOwnTask` | internal/service/dispatch/dispatch.go:369-394 | A worker's report decides its task exactly as told if the task is still its agent's and unfinished, touches no other, and otherwise changes nothing. |
| `DispatchService.VerifiedExactly` | internal/service/dispatch/dispatch.go:329-346 | A claim's lease is verified exactly when it is one of the worker's active ones and one of the resource's. |
| `Claims.RunningTasksWereLeased` | internal/service/dispatch/dispatch.go:223-262 | In every run of the daemon's own steps, whatever its callers do, a running task records a lease that was given to its worker on its resource. |
| `Claims.CallTakesOneTask` | internal/service/dispatch/dispatch.go:236-262 | A verified call ends exactly when it has taken a task, which then records the call's worker and lease; so it takes no second one. |
| `Claims.ClaimIsCoveredExactly` | internal/service/dispatch/dispatch.go:240-262 | A claim leaves every running task an active slot of its own exactly when its lease is still active at that moment and no running task records it, neither of which is looked at again. |
| `Claims.CoveredFits` | internal/service/dispatch/dispatch.go:223-262 | While every running task has an active slot of its own, the running tasks on a resource number at most its active leases. |
| `Claims.OneLeaseCanBackTwoClaims` | internal/service/dispatch/dispatch.go:223-262 | A run in which one active lease on a resource of capacity one, verified before each of two claims, backs two running tasks. |
| `Claims.LapsedLeaseCanBackAClaim` | internal/service/dispatch/dispatch.go:230-244 | A run in which a lease lapses between its verification and the claim: a task runs and no slot is held. |
| `Arrivals.CommitAnnounces` | internal/service/dispatch/dispatch.go:112-142 | A submission, report or cancellation that makes work available or ends a task is one whose author signals just that key. |
| `Arrivals.AnnouncedIsSo` | internal/service/dispatch/dispatch.go:369-420 | And it signals nothing that did not happen: the work is queued, the task has ended and had not before. |
| `Arrivals.ActKeepsSound` | internal/service/dispatch/dispatch.go:191-262 | Every step of every waiter and writer, signals for printed output included, keeps the invariant: a channel taken is closed or is the next to be closed, and whoever sleeps through what it waits for without a signal coming has one of the two excuses below. |
| `Arrivals.WorkIsHeardOf` | internal/service/dispatch/dispatch.go:191-215 | In every interleaving a worker asleep on an open channel while something is queued on its resource has a signal coming. |
| `Arrivals.LookDecides` | internal/service/dispatch/dispatch.go:191-262 | What a look comes to for whoever began the wait: a worker returns exactly when something is queued, a requester exactly when the task ended or is unknown, and a claim takes the oldest task if its command is configured and otherwise sleeps, unless it is not to wait. |
| `Arrivals.SleeperWatchesAgain` | internal/service/dispatch/dispatch.go:205-213 | A closed channel or the timer sends a sleeper back to watch again, its caller ends the wait, and nothing else moves it. |
| `Arrivals.ClaimIsWokenUnlessItSkipped` | internal/service/dispatch/dispatch.go:223-262 | A blocking claim sleeps through queued work with no signal coming only if its own last look failed a task whose command was gone. |
| `Arrivals.SkippingSleepsOverTheRest` | internal/service/dispatch/dispatch.go:279-325 | A claim that fails a task whose command is gone goes to sleep over queued work exactly when another task was queued, its channel is still open and no other arrival is to be signalled. |
| `Arrivals.OutcomeIsHeardOfUnlessVanished` | internal/service/dispatch/dispatch.go:433-456 | Whoever awaits a task sleeps through its end with no signal coming exactly when a claim failed the task because its command was gone and no output of it is still to be signalled. |
| `Arrivals.OutputWakes` | internal/service/dispatch/dispatch.go:350-366 | In every run output that is taken, and only that, is signalled, and the signal lets everyone parked on the task wake. |
| `Arrivals.VanishedSleepsOn` | internal/service/dispatch/dispatch.go:283-325 | Such a sleeper sleeps on through every continuation of the run, until its own timer or caller or an output call already under way. |
| `Arrivals.VanishedWakesNobody` | internal/service/dispatch/dispatch.go:279-325 | Both happen, in one reachable state: the claim sleeps although the next task's command is configured, and the failed task's requester is not told. |
| `RpcServer.MoveKeepsCounted` | internal/transport/jsonrpc/server.go:181-221 | Every step keeps the semaphore equal to the slots in use and within its limit. |
| `RpcServer.StepKeepsSound` | internal/transport/jsonrpc/server.go:88-98 | Every step keeps the in-flight counter equal to the calls begun and not ended; once stopped no step adds one. |
| `RpcServer.CallsAreCounted` | internal/transport/jsonrpc/server.go:88-98 | In every interleaving the counter that the shutdown waits on is the number of calls in progress over all sessions. |
| `RpcServer.SlotsAreBounded` | internal/transport/jsonrpc/server.go:160-225 | A session never has more than 64 calls holding a slot, and its semaphore counts exactly those. |
| `RpcServer.NothingBeginsAfterStop` | internal/transport/jsonrpc/server.go:88-98 | After the stop flag is set no call begins, in any continuation of the run. |
| `RpcServer.NothingRunsAfterShutdown` | internal/transport/jsonrpc/server.go:320-349 | Once stopped with the counter at zero, every handler has finished and none ever runs again. |
| `RpcServer.OneReplyEach` | internal/transport/jsonrpc/server.go:240-291 | A frame is answered at most once; one dealt with has exactly one reply if it has an identifier and its session is open, and a notification has none. |
| `RpcServer.RequestsBecomeCalls` | internal/transport/jsonrpc/server.go:160-237 | A frame that is not a request never becomes a call or holds a slot, and until the server stops every request its reader is done with has become one. |
| `RpcServer.SlotIsTakenWhenFree` | internal/transport/jsonrpc/server.go:181-195 | A request waits for a slot exactly while 64 calls of its session have one. |
| `RpcServer.NoReplyAfterHangup` | internal/transport/jsonrpc/server.go:281-291 | A session that has hung up stays closed in every continuation and is answered nothing more. |
| `RpcServer.OnlyAsTold` | internal/transport/jsonrpc/server.go:320-349 | In every run the server has stopped exactly once it was told to, and a session is open exactly until it hangs up. |
| `PrWatch.BackoffFor` | internal/service/prwatch/prwatch.go:457-471 | The loop computes the capped doubling, and the delay lies between it and a quarter more; below four nanoseconds there is no answer. |
| `PrWatch.BackoffIsCappedDoubling` | internal/service/prwatch/prwatch.go:457-471 | The wait is min(interval times 2 to the failures minus one, 15 minutes) exactly when it doubled at least once or the interval is within the cap. |
| `PrWatch.JitterNeedsFour` | internal/service/prwatch/prwatch.go:457-471 | There is room for jitter after every number of failures exactly when the interval is at least four nanoseconds. |
| `PrWatch.CommentChanges` | internal/service/prwatch/changes.go:117-136 | Announces exactly the comments not in the previous window, in order. |
| `PrWatch.Watcher.Poll` | internal/service/prwatch/prwatch.go:307-356 | One attempt rewrites the row and appends its events: a failure touches only the error columns, the count and the next attempt, and nothing at all when its delay leaves no room for jitter and the random source panics. |
| `PrWatch.Watcher.RecordFailure` | internal/service/prwatch/prwatch.go:417-442 | A failure counts up, schedules the next attempt by the backoff and is announced only if it is the first; it panics, with nothing written, exactly when the wait is below four nanoseconds. |
| `PrWatch.RowRemembersLastGood` | internal/store/sqlite/watches.go:112-139 | After every history the stored failures are those since the last success, or none with an interval below four nanoseconds, and snapshot, account, title, state, checks and unresolved count are that success's. |
| `PrWatch.OutagesAlternate` | internal/service/prwatch/prwatch.go:307-356 | Over every history unreachable and recovered strictly alternate, with one unreachable more exactly while failures are counted. |
| `PrWatch.FailureWaits` | internal/service/prwatch/prwatch.go:417-471 | After n failures in a row the next attempt lies at least w and less than w plus a quarter ahead, w being the capped doubling. |
| `PrWatch.NextLookIs` | internal/service/prwatch/prwatch.go:307-356 | One law for the next attempt after every history: a settled interval after seeing the pull request merged or closed, an interval after seeing it otherwise, the n-th wait and its jitter after n failures in a row. |
| `PrWatch.ErrorsAreRemembered` | internal/service/prwatch/prwatch.go:417-442 | A failure is stored with its reason and time and changes nothing else but the count and the next attempt; a success clears the reason. |
| `PrWatch.PollAnnounces` | internal/service/prwatch/prwatch.go:339-353 | The last poll of a history announces the first failure with its reason, the end of a row of failures with their number, and then the new comments. |
| `CommentFeed.SnapshotIsLastWindow` | internal/service/prwatch/prwatch.go:330-356 | The stored snapshot shows the window of the last successful poll, whatever failed since. |
| `CommentFeed.AnnouncedIsFeed` | internal/service/prwatch/changes.go:16-43 | Over every history the announced comments are the conversation at the feed's positions, in that order. |
| `CommentFeed.FeedAscends` | internal/service/prwatch/changes.go:117-136 | Those positions ascend, so no comment is announced twice or out of order. |
| `CommentFeed.ExactlyOnce` | internal/service/prwatch/changes.go:117-136 | A comment added after the first observation and by the last is announced exactly when it had not been pushed out of the window between two successive observations; no other is. |
| `Identifiers.PutBigEndian` | internal/id/id.go:31-33 | The loop fills the eight bytes with the base-256 digits of the time, most significant first. |
| `Identifiers.New` | internal/id/id.go:28-40 | The buffer filled in place is the lower six bytes of big-endian time and then the random bytes, and the result its encoding after the kind. |
| `Identifiers.IdentifierLooksSo` | internal/id/id.go:22-40 | An identifier is its kind, an underscore and 26 characters, each a digit or a lower-case letter up to v. |
| `Identifiers.QuintetsFit` | internal/id/id.go:13 | The unpadded encoding of section 7 of RFC 4648 reads the bytes as one number, shifted left to a multiple of five bits. |
| `Identifiers.EncodingKeepsOrder` | internal/id/id.go:12-13 | Equally long byte strings are ordered as their encodings are, and different ones are encoded differently. |
| `Identifiers.SortByTime` | internal/id/id.go:23-40 | All identifiers of one kind made at one time sort before all made at another exactly when the low 48 bits of the first time are smaller. |
| `Identifiers.IdsAreDistinct` | internal/id/id.go:28-40 | Two identifiers of one kind are equal exactly when the low 48 bits of their times and all their random bytes are. |
| `MessagingService.Service.Append` | internal/store/sqlite/messages.go:29-55 | A message is stored with one unread delivery for each distinct recipient, or nothing is stored and the error says why. |
| `MessagingService.Service.Pending` | internal/store/sqlite/messages.go:58-90 | Returns the oldest unacknowledged messages in (created_at, id) order, fewer than the limit only if there are no more. |
| `Inbox.PageIsUnique` | internal/store/sqlite/messages.go:58-90 | The order leaves no choice: an inbox and a limit determine the page. |
| `Inbox.PageIsAsAsked` | internal/store/sqlite/messages.go:58-63 | A page is as long as the limit, or 100 if none is given, or as the inbox. |
| `Inbox.PageIsOldestFirst` | internal/store/sqlite/messages.go:58-90 | Of two messages in a page the earlier was created earlier, or at the same time with the lesser identifier. |
| `MessagingService.Service.Read` | internal/service/messaging/messaging.go:196-217 | Reading marks exactly what it returns as delivered and leaves all of it pending. |
| `MessagingService.Service.Acknowledge` | internal/store/sqlite/messages.go:117-146 | Completes exactly the agent's own outstanding deliveries among those named, keeping earlier delivery times, and counts them. |
| `MessagingService.Service.Prune` | internal/store/sqlite/messages.go:240-268 | Deletes the removable messages with their deliveries and counts the messages. |
| `MessagingService.Service.WithoutSender` | internal/service/messaging/messaging.go:286-306 | The loop keeps everyone but the sender, in order. |
| `MessagingService.Service.Send` | internal/service/messaging/messaging.go:102-161 | A message is stored for everyone it resolves to, or nothing is; nobody listening is an error. |
| `Inbox.DirectMessageReachesItsName` | internal/service/messaging/messaging.go:102-175 | A direct message fails exactly when nobody has the name; otherwise the agent of that name gets the one new delivery, and the message, as asked and expiring when it should, is in that inbox and no other. |
| `Inbox.TopicReachesEveryoneElse` | internal/service/messaging/messaging.go:178-193 | A topic message fails exactly when nobody but its sender listens; otherwise exactly the other listeners, everyone active for "all", have it, and no other row changes. |
| `Inbox.UnsendableIsRefused` | internal/service/messaging/messaging.go:102-193 | A request without a kind, a JSON body, a sender or an identifier, or addressed both ways, is refused. |
| `Inbox.AppendErrors` | internal/store/sqlite/messages.go:29-55 | A message is stored exactly with a new identifier, a sender, one destination, a kind, a body and a recipient. |
| `Inbox.RunKeepsConsistent` | internal/store/sqlite/messages.go:29-55 | In every run each delivery has its message, each message a recipient, and whatever is acknowledged was delivered. |
| `Inbox.CountsAreOrdered` | internal/core/message.go:83-85 | In every reachable state acknowledged <= delivered <= recipients for each message, and a stored message has a recipient. |
| `Inbox.DeliveriesOnlyProgress` | internal/store/sqlite/messages.go:92-146 | While a message exists its text and recipients are fixed and the first delivery and acknowledgement stand. |
| `Inbox.MarkingDates` | internal/store/sqlite/messages.go:92-113 | Marking dates the agent's own first deliveries among those named and changes nothing else. |
| `Inbox.AcknowledgingCompletes` | internal/store/sqlite/messages.go:117-146 | Acknowledging completes the agent's own outstanding deliveries among those named, dates unread ones, and changes nothing else. |
| `Inbox.DeliveredExactlyWhenRead` | internal/store/sqlite/messages.go:92-146 | Over every run a delivery is marked read exactly when its agent read or acknowledged it. |
| `Inbox.StepEndsExactly` | internal/store/sqlite/messages.go:117-146 | One step takes a message out of an inbox exactly when its agent acknowledges it or it is pruned after its expiry. |
| `Inbox.NothingUnhandledIsLost` | internal/store/sqlite/messages.go:247-268 | Over every run an unacknowledged delivery is still pending at the end exactly when its agent did not acknowledge it and no pruning came after its message expired. |
| `Inbox.PruneRemovesExactly` | internal/store/sqlite/messages.go:240-268 | A message is removed, with all its deliveries, exactly when it expired, or its creation is a retention period ago and nobody has it pending. |
| `Inbox.RetentionIsNotFromAcknowledgement` | internal/store/sqlite/messages.go:240-268 | A run in which a pending message is removed in the same instant it is acknowledged, so the documented retention after acknowledgement does not hold. |
| `Inbox.DrainingIsInOrder` | internal/service/messaging/messaging.go:196-227 | Reading with any limits and acknowledging hands out the earliest pending messages in order, each once, and leaves exactly the rest, whatever other agents do between the query, its marking and the acknowledgement. |
| `Inbox.DrainingIsFull` | internal/store/sqlite/messages.go:58-90 | Unless the inbox is empty afterwards, each round handed out as many messages as it asked for. |
| `Inbox.DrainingEmptiesTheInbox` | internal/service/messaging/messaging.go:196-227 | Once as many were asked for as were pending, the inbox is empty and exactly the pending messages were handed out. |
| `Settle.Watcher.Observe` | internal/daemon/reload.go:243-288 | One tick moves the three variables as specified and reports whether a reload was tried. |
| `Settle.CounterIsStreak` | internal/daemon/reload.go:255-268 | The loop's counter is the number of equal readings in a row since the last attempt. |
| `Settle.AttemptsExactlyWhenSettled` | internal/daemon/reload.go:243-288 | A reload is tried at a tick exactly when the last three readings are equal, differ from what is loaded, and neither of the two ticks before tried. |
| `Settle.SettledFileIsTried` | internal/daemon/reload.go:243-288 | Any three equal readings in a row that differ from what is loaded contain an attempt. |
| `Settle.BrokenFileIsRetried` | internal/daemon/reload.go:269-288 | A broken file left alone is tried again exactly every third tick, and what is loaded stays. |
| `Split.Split` | internal/transport/telegram/client.go:206-228 | The loop terminates for every limit of at least one and produces the specified parts. |
| `Split.SplitLosesOnlyNewlines` | internal/transport/telegram/client.go:206-228 | Every part fits the limit, and with newlines removed the parts joined are the text. |
| `Split.SplitLosesNothingExactlyWhen` | internal/transport/telegram/client.go:206-228 | The parts joined are the text itself exactly when it fits in one part or no cut meets a newline, a condition on the text alone. |
| `Split.NewlinesCanSurvive` | internal/transport/telegram/client.go:206-228 | A text with a newline can come back whole, whether or not it fits in one part. |
| `Split.CutsAtLineEnds` | internal/transport/telegram/client.go:214-222 | A cut falls at the end of the last line that ends inside the limit, and on the limit only if there is none. |
| `Split.PartsAreClean` | internal/transport/telegram/client.go:211-228 | No part after the first is empty or starts with a newline, and none before the last ends with one. |
| `Reference.ParseReference` | internal/github/pullrequest.go:148-179 | The step-by-step rewriting computes the parser the round trips are proved about. |
| `Reference.RoundTrip` | internal/github/pullrequest.go:43-45 | Parsing a written reference gives the same triple exactly when the owner is non-empty without slash, hash or leading space, the repository non-empty without hash, the number positive and in range, and no host name occurs. |
| `Reference.PastedRoundTrip` | internal/github/pullrequest.go:151-161 | Parsing a pasted URL gives the triple exactly when the parts are readable, no earlier "/pull/" occurs, and what follows the number, less space at the end, is nothing, a query, or more path other than "/pull/". |
| `Reference.FragmentIsRefused` | internal/github/pullrequest.go:151-176 | A pasted URL with a fragment is refused, whatever the fragment. |
| `Reference.PermalinkIsRefused` | internal/github/pullrequest.go:146-176 | For one, the address of a comment as a browser shows it. |
| `Reference.ReadIsReadable` | internal/github/pullrequest.go:163-178 | Whatever the parser accepts could have been written, and its name stood before the first hash. |
| `Reference.ReadsExactly` | internal/github/pullrequest.go:163-178 | The short form is read exactly when it spells an owner, a slash, a repository, a hash and text denoting a positive number. |
| `Reference.SignsAndZeros` | internal/github/pullrequest.go:173-176 | The number may carry a sign or a zero in front. |
| `Reference.TooBigIsRefused` | internal/github/pullrequest.go:173-176 | A number that does not fit in 64 bits is refused. |
| `Reference.DecimalIsShortest` | internal/github/pullrequest.go:173-176 | No text the number parser accepts for a positive number is shorter than its decimal form. |

## Left out

- LeasingRuns.CapacityHolds: assumes a clock that never goes back; with a wall clock set back an expired lease counts as active again.
- Wakeup.FailedAcquireHoldsNothing: assumes the write that abandons the entry succeeds; the program only logs its failure.
- Workers.RunningTasksHoldSlots: holds for runs in which no lease ends between its check and its worker's report; renewal by the worker's client is part of that assumption.
- DispatchService.Service.Complete: reads, writes and signals in one step here; the interleavings of these are covered by the runs in `Tasks`, which are sequences of the guarded writes, and in `Arrivals`, where a signal is a step of its own.
- DispatchService.Service.Cancel: one step here, like `Complete`.
- DispatchService.Service.AppendOutput: one step here, like `Complete`.
- DispatchService.Service.ReleaseAbandoned: one step here; its writes and signals are separate steps in `Arrivals`.
- DispatchService.Service.Create: keeps no working directory and does not check that the resource and the requester exist, which the schema's references do.
- MessagingService.Service.Read: queries and marks in one step here; in `Inbox` a round has them apart, with other agents acting between.
- MessagingService.Service.Send: the agents a name or topic resolves to are a parameter, since the agent registry is not part of this model; its audit record and the notification of connected agents are left out.
- LeasingService.Service.Join: the entry and its record are one step here; the program writes the record after the entry, outside its transaction, and only logs a failure to do so. `Define` writes its record the same way.
- Inbox.NothingUnhandledIsLost: assumes identifiers are not used twice in the run.
- Split.Split: works on bytes, as the program does, and says nothing about characters cut in half.
- Goroutines, sessions and channels are states of a transition system; a channel is a number that is open or closed. The scheduler, memory and the operating system are not modelled.
- The order in which a bulk operation meets its rows is arbitrary, because its query does not fix one.
- Lease metadata, reason texts and audit details beyond the lease or entry named.
- Changes of a pull request other than comments: state, checks, pushed commits, reviews and threads.
- Who may watch a pull request, its subscribers, accounts and the sweep that picks due watches.
- Arrivals.ClaimIsWokenUnlessItSkipped: the lease of a claim is checked in `Claims` and `Workers`, not here.
- PrWatch.RowRemembersLastGood: a panic ends one attempt here; that it ends the daemon is not modelled.
- The notifications of messaging and the signals of the watcher.
- Task submission beyond its stored row: working directories and the command catalogue's contents.
- Termination of `Shutdown` and `Serve`, handler panics and malformed JSON.
- The message log, topic subscriptions and the agent registry.
- SQL text, the driver, migrations, deletion of resources, store failures and restart of the daemon.
- Overflow of 64-bit durations and instants, and clock readings finer than a microsecond except in the backoff.
- Command line, configuration, sockets, credentials, MCP tools, Telegram commands and the calls to `gh`.
