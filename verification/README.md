# Verified models of the yuanrong function system

This project models five parts of the function system in Dafny 4.11 and proves what they
promise, for every run and every interleaving:

- **The LiteBus actor scheduler.** Senders, actors with two swapped mailboxes, one shared
  ready queue, any number of workers, termination and shutdown (`ActorPolicy`,
  `Scheduler`, `SchedulerProofs`, `SchedulerTheorems`, `SchedulerEvents`; the objects in
  `ActorObjects`).
- **LiteBus futures.** Promises, callbacks, `Then` chains, association and `Collect` as a
  transition system over a heap of futures, where one event is one critical section
  (`Futures`, `FutureCells`, `ThenChains`, `Collects`, `CollectSteps`, `FutureTheorems`,
  `FutureRaces`, `FutureFrames`, `FutureJoins`, `FutureCalls`, `FutureProgress`; the objects
  in `FutureObjects`).
- **The function agent.** The local snapshot store and restore pins (`SnapshotStore`,
  `StoreProofs`, `StoreOutcomes`, `RestorePins`, `PinProofs`, `PinOutcomes`,
  `SnapshotObjects`), the phases of a snapshot request and runtime-manager incarnations
  (`SnapshotPhases`, `PhaseProofs`, `PhaseLives`, `PhaseCareful`, `PhaseReplays`,
  `PhaseMessages`), the finalization of an attempt (`FinalizeChain`; the objects of both in
  `PhaseObjects`), single-flight downloads and the collection of code packages
  (`CodePackages`, `PackageProofs`, `PackageFates`, `PackageProgress`, `PackageSharing`,
  `PackageRefers`, `PackageOutcomes`, `PackageObjects`). `StatusCodes` holds the codes that
  several of them share.
- **The vendor cache** of the build scripts, shared by processes that may crash between any
  two file operations (`VendorCache`, `CacheProofs`, `CacheProgress`, `CacheOutcomes`,
  `VendorObjects`).
- **Actor addresses**: parsing, printing, equality and hashing (`Aids`).

Each component has the same shape. A datatype holds the state, one function per atomic step
computes the next state, and what the outside world decides (message contents, results of
file operations, clocks, the order of hash tables) is a parameter of the step. An invariant
is proved step by step, then for every run, and the theorems follow from it. What each event
means is stated over the events of a run, or by the contents of what it leaves, and not by the
function that computes it. Some fields of
the state are history (everything ever sent, every callback ever started); they are written
but never read by the steps. Where the source updates objects in place, classes do the same:
their methods compute the functions of the transition system, and `Valid()` is the invariant
proved there, which every method keeps.

The `Enabled` predicates say what can happen at all: only a publication in flight can end,
only a download under way can end, an armed timer fires. Nothing is assumed about snapshot
or deployment request IDs that are used again, or about runtime managers that answer more
than once.

Where code and description disagree the code is modelled. These properties one might expect
do not hold; an example is given and the exact condition is proved instead:

- A copied or reparsed address is not always equal to the original
  (`Aids.CopyTheorem`, `Aids.PrintParseTheorem`, example `Aids.CopyMayDiffer`).
- A retransmitted snapshot request is not recognised unless it already names the checkpoint
  directory (`PhaseReplays.ReplayTheorem`, example `PhaseReplays.RetransmissionMissed`).
- Remote publication may be launched more than once for one record
  (`PhaseLives.LaunchTheorem`, `PhaseLives.OnceTheorem`, example `PhaseReplays.TwoLaunches`).
- A completed snapshot response may still change (`PhaseLives.FinalTheorem`, example
  `PhaseReplays.ResponseReplaced`); it does not in runs without the two causes
  (`PhaseCareful.CarefulResponseTheorem`).
- A runtime may be started although a download for it failed, when two deployment requests
  under way share an ID (`PackageFates.FateTheorem`, `PackageSharing.SharingTheorem`, example
  `PackageFates.SharedFailure`).
- Addresses that are unequal may have the same hash string (`Aids.HashDecides`, example
  `Aids.UnequalUnordered`).
- Setting the protocol of an address may change its host (`Aids.ProtocolTheorem`, example
  `Aids.HostMayChange`).

## Model

| member | source | states |
|---|---|---|
| `ActorPolicy.BeforeTerminate` | common/litebus/src/actor/actor.cpp:126-163 | what a batch loop handles: the longest prefix without a terminate message, followed by one if anything follows |
| `SchedulerProofs.StepKeeps` | common/litebus/src/actor/actorpolicy.cpp:89-142 | every critical section and worker step keeps single runner, no lost wakeup, mailbox order, registry and queue invariants |
| `SchedulerTheorems.SingleRunnerTheorem` | common/litebus/src/actor/actorpolicy.cpp:102-142 | in every reachable state an actor's entries on the ready queue plus workers running it are exactly one if it is `ready` and none otherwise; none queued after termination; no two workers run one actor |
| `SchedulerTheorems.NoLostWakeupTheorem` | common/litebus/src/actor/actorpolicy.cpp:24-29 | a started live actor with waiting mail is queued or running, after any mix of sends, pauses and resumes |
| `SchedulerTheorems.FifoTheorem` | common/litebus/src/actor/actorpolicyinterface.hpp:38-45 | the two mailboxes are one queue: handled + rest of the batch + enqueue mailbox is everything sent, in order; `msgCount` is exact; handling never passes the first terminate message and `Quit` runs at most once |
| `SchedulerTheorems.StepHistory` | common/litebus/src/actor/actor.cpp:111-166 | no event takes back a handled message; after `Quit` has begun nothing more is handled; `terminated` and a freed waiter lock stay |
| `SchedulerTheorems.TerminatedForGood` | common/litebus/src/actor/actor.cpp:111-117 | over whole runs a terminated actor is never queued and handles nothing; once its waiter lock is free no worker touches it |
| `SchedulerTheorems.NullsOfRun` | common/litebus/src/actor/actorpolicy.cpp:89-123 | scheduling never enqueues null: all nulls ever queued came from `Finalize` |
| `SchedulerTheorems.FirstSentinelTheorem` | common/litebus/src/actor/actorthread.cpp:72-118 | each worker that left took exactly one null, and everything queued before the first null was dequeued before any worker left |
| `SchedulerTheorems.ShutdownTheorem` | common/litebus/src/actor/actorthread.cpp:49-70 | when all workers have left, each took one null of `Finalize` and what was never dequeued is exactly what came after the last of them |
| `SchedulerTheorems.WorkerStepDecreases` | common/litebus/src/actor/actor.cpp:119-166 | every worker step makes a measure of waiting mail and unfinished work smaller |
| `SchedulerTheorems.DrainBound` | common/litebus/src/actor/actorthread.cpp:89-118 | without new mail every schedule of the workers is bounded |
| `SchedulerTheorems.ComesToRest` | common/litebus/src/actor/actorthread.cpp:89-118 | from every state some schedule of the workers reaches one in which none can move |
| `SchedulerTheorems.DeliveryTheorem` | common/litebus/src/actor/actor.cpp:119-166 | at rest every started or terminated actor has handled exactly the messages before its first terminate message, and is terminated if and only if one was sent |
| `SchedulerTheorems.JoinTheorem` | common/litebus/src/actor/actorthread.cpp:49-70 | after `Finalize` the workers come to rest only by all leaving |
| `SchedulerEvents.CallsTheorem` | common/litebus/src/actor/actormgr.cpp:177-228 | after any run the actors are those spawned, in order; each has been sent exactly the messages given to it, in order; it is started if and only if the last status given to it was to run, and not if there was none |
| `SchedulerEvents.DeliveredTheorem` | common/litebus/src/actor/actor.cpp:119-166 | at rest an actor whose last status was to run has handled exactly the messages given to it before the first terminate message |
| `SchedulerEvents.ScheduleTheorem` | common/litebus/src/actor/actorpolicy.cpp:24-123 | what any event after any run adds to the ready queue: a null for a sentinel, or the actor that it wakes, which is live, not scheduled, has mail and was last told to run; so never a paused actor |
| `ActorObjects.ShardedThread.Enque` | common/litebus/src/actor/actorpolicy.cpp:102-115 | the message goes to the end of the enqueue mailbox and is counted, the count is returned, and the entry put on the ready queue if any; the batch being iterated is untouched |
| `ActorObjects.ShardedThread.Notify` | common/litebus/src/actor/actorpolicy.cpp:117-123 | schedules exactly a started, idle, live actor with mail |
| `ActorObjects.ShardedThread.SetStatus` | common/litebus/src/actor/actorpolicy.cpp:24-29 | afterwards the actor is started exactly if it was told to run; the ready-queue entry of pausing or resuming |
| `ActorObjects.ShardedThread.Swap` | common/litebus/src/actor/actorpolicyinterface.hpp:38-45 | the two mailbox objects change roles and the count is reset |
| `ActorObjects.ShardedThread.Get` | common/litebus/src/actor/actorpolicy.cpp:125-142 | null exactly when nothing waits; otherwise the list that senders filled, without looking at `start` |
| `ActorObjects.ShardedThread.MarkTerminated` | common/litebus/src/actor/actorpolicy.cpp:96-99 | `terminated` and the null actor change together |
| `ActorObjects.ActorThread.Finalize` | common/litebus/src/actor/actorthread.cpp:49-70 | one null per worker behind everything queued, then no workers |
| `ActorObjects.ActorThread.Run` | common/litebus/src/actor/actorthread.cpp:89-118 | a worker runs everything up to the first null, takes that null, and leaves the rest |
| `ActorObjects.ActorThread.AddThread` | common/litebus/src/actor/actorthread.cpp:41-48 | adds the number of workers asked for, none for a negative number |
| `ActorObjects.ActorBase.Quit` | common/litebus/src/actor/actor.cpp:111-117 | leaves the registry, marks the mailbox terminated, frees the waiter lock |
| `ActorObjects.ActorBase.Run` | common/litebus/src/actor/actor.cpp:119-166 | handles exactly the waiting messages before the first terminate message, quits once if there is one, and otherwise leaves the actor idle with empty mailboxes |
| `ActorObjects.ActorMgr.Add` | common/litebus/src/actor/actormgr.cpp:177-201 | a taken name is refused without effect |
| `ActorObjects.ActorMgr.RemoveActor` | common/litebus/src/actor/actormgr.cpp:75-81 | the name is free again, nothing else changes |
| `FutureCells.StepKeeps` | common/litebus/include/async/future.hpp:230-248 | every event keeps: each registration is pending, about to be called, or called once; the callback list is frozen from settling on |
| `ThenChains.StepKeeps` | common/litebus/include/async/future_base.hpp:159-195 | every event keeps: a `Then` future set by its promise has what its source and stage make of it, and what is still owed to it is in flight |
| `CollectSteps.StepKeeps` | common/litebus/include/async/collect.hpp:63-117 | every event keeps: the counter counts each OK input once, and the result is promised or set as soon as it is decided |
| `FutureTheorems.ExactlyOnceTheorem` | common/litebus/include/async/future.hpp:470-501 | in every reachable state no callback has run while its future is unsettled, none twice, pending ones in registration order, and all exactly once when the threads are done |
| `FutureTheorems.WriteOnceTheorem` | common/litebus/include/async/future.hpp:270-314 | over any run the outcome of a settled future, the callbacks pending at that moment, all registrations and all started callbacks are kept |
| `FutureRaces.FirstOfferTheorem` | common/litebus/include/async/future.hpp:485-501 | over any run a future that becomes settled has the whole outcome of the first event that hands it one, and no event before that handed it any |
| `FutureRaces.AssociatedTheorem` | common/litebus/include/async/future.hpp:564-598 | once a future is associated only four competitors can still win: a future told to complete it, the public setters, a collect that discards it, and a promise that had passed its test before |
| `FutureJoins.NewTheorem` | common/litebus/include/async/future.hpp:517-520 | a new promise has not been used: its future is unsettled, not associated, and nothing is under way for it |
| `FutureJoins.JoinTheorem` | common/litebus/include/async/future.hpp:564-590 | a promise that has not been used is associated with a future and left alone: in every later state in which the threads are done, and unless somebody else settled it, its future is settled if and only if the other one is, with the same outcome |
| `FutureJoins.SetPromiseTheorem` | common/litebus/include/async/future.hpp:537-598 | a promise that has not been used is set and left alone: when the threads are done, and unless somebody else settled it, its future is settled with exactly that outcome |
| `FutureCalls.RegisterTheorem` | common/litebus/include/async/future.hpp:230-248 | after any run the callbacks of callers on a future are exactly those given to `OnComplete`, in order |
| `FutureCalls.ThenTheorem` | common/litebus/include/async/future.hpp:339-367 | from the call of `Then` in any reachable state to any later state in which the threads are done: unless somebody else settled it, the future returned is unsettled while its source is, has the failure of its source, has the value of the stage, or is settled if and only if the future that the stage returned is, with the same outcome |
| `FutureTheorems.NeverStuck` | common/litebus/include/async/future_base.hpp:151-157 | whatever a thread still has to do, it can do |
| `FutureTheorems.ThenFoldTheorem` | common/litebus/include/async/future.hpp:339-367 | for chains of any length and any interleaving the last outcome is the left-to-right fold of the stages, synchronous or asynchronous, over the first outcome |
| `FutureTheorems.ShortCircuitTheorem` | common/litebus/include/async/future_base.hpp:175-195 | the first error passes through every later link unchanged and no later stage function is called; all stages before an OK link were called |
| `FutureTheorems.ThenCompletes` | common/litebus/include/async/future_base.hpp:175-195 | when the threads are done a settled source has settled its `Then` future, unless the future its stage returned is unsettled; the stage was called exactly if the source is OK |
| `FutureTheorems.ChainCompletesTheorem` | common/litebus/include/async/future.hpp:354-367 | when the threads are done, settling the root of a chain of synchronous and asynchronous stages has settled all of it if and only if the futures that its asynchronous stages returned are settled; the last outcome is then the fold |
| `FutureTheorems.CollectTheorem` | common/litebus/include/async/collect.hpp:71-87 | the result is OK exactly if every input is, with one value for each input, that of the input, in list order, and otherwise carries the failure of an input that the collect did not discard itself |
| `FutureRaces.CollectFirstTheorem` | common/litebus/include/async/collect.hpp:71-87 | over any run the outcome of a collect is the one of the first of its settings to take the lock of the result; nothing was handed to the result before |
| `FutureTheorems.CollectCompletesTheorem` | common/litebus/include/async/collect.hpp:95-117 | when the threads are done the result is settled if and only if all inputs are, and one failed input is enough to settle everything |
| `FutureCalls.EmptyCollectTheorem` | common/litebus/include/async/collect.hpp:95-100 | the future returned for no inputs has the empty list of values, for good |
| `FutureCalls.CollectCallTheorem` | common/litebus/include/async/collect.hpp:95-118 | from the call of `Collect` in any reachable state to any later state in which the threads are done: the future returned is settled if and only if all the given inputs are; unless somebody else settled it, it has their values in list order if all are OK, and otherwise the failure of one that this collect did not bring about |
| `FutureProgress.TaskMeasure` | common/litebus/include/async/future.hpp:470-475 | every step of a thread makes the remaining work smaller |
| `FutureProgress.BoundedTheorem` | common/litebus/include/async/future.hpp:470-501 | however threads are scheduled they take boundedly many steps |
| `FutureProgress.FinishesTheorem` | common/litebus/include/async/future.hpp:470-501 | and can always go on until nothing is left to do |
| `FutureObjects.FutureData.OnComplete` | common/litebus/include/async/future.hpp:230-248 | appends while initial, otherwise asks for a direct call; simulates the registration step |
| `FutureObjects.FutureData.Set` | common/litebus/include/async/future.hpp:485-501 | the first setter wins with status and value together; simulates the settling step |
| `FutureObjects.FutureData.SetFailed` | common/litebus/include/async/future.hpp:297-314 | the first setter wins with its code and the default value |
| `FutureObjects.FutureData.RunCallbacks` | common/litebus/include/async/future.hpp:470-475 | every pending callback once, in order, then both lists are empty |
| `FutureObjects.FutureData.OnAbandoned` | common/litebus/include/async/future.hpp:250-268 | called at once after abandonment, kept while initial, dropped otherwise |
| `FutureObjects.FutureData.Abandon` | common/litebus/include/async/future.hpp:322-337 | abandons an unsettled future at most once and takes every waiting callback exactly then |
| `FutureObjects.FutureData.TryAssociate` | common/litebus/include/async/future.hpp:579-583 | succeeds exactly for an initial future that is not associated yet; simulates the association step |
| `FutureObjects.Collected.Waited` | common/litebus/include/async/collect.hpp:71-87 | a failure or the last OK input settles an unsettled result with the failure's code or with the value of every input in list order; an OK input is counted |
| `FutureObjects.Collected.Discarded` | common/litebus/include/async/collect.hpp:63-69 | every pending input fails, every settled one keeps its outcome, even if a future is listed twice |
| `FutureObjects.Collected.Values` | common/litebus/include/async/collect.hpp:79-83 | the values of all inputs in list order |
| `StoreProofs.OpInv` | functionsystem/src/function_agent/snapshot/local_snapshot_store.cpp:174-469 | every operation keeps: exact byte count, each record once in the LRU list, pins only on artifacts with record and directory, deferred evictions only on pinned artifacts |
| `StoreProofs.BytesWithout` | functionsystem/src/function_agent/snapshot/local_snapshot_store.cpp:408-412 | the sum of record sizes does not depend on the order in which records are taken |
| `StoreProofs.PinTheorem` | functionsystem/src/function_agent/snapshot/local_snapshot_store.cpp:285-328 | a successful pin adds one, an unpin takes one away even if the eviction after it fails, nothing else changes any count, and no operation touches the directory of an artifact whose count stays positive |
| `StoreProofs.EvictionTheorem` | functionsystem/src/function_agent/snapshot/local_snapshot_store.cpp:388-404 | if none of its removals fails, eviction ends at or below the limit unless everything left is pinned or protected, and evicts exactly the unspared tail of the LRU list from some point on |
| `StoreProofs.FrugalTheorem` | functionsystem/src/function_agent/snapshot/local_snapshot_store.cpp:388-404 | eviction stops as soon as it may: with the last artifact it gave up the store would still be above its limit, even if removals fail |
| `StoreProofs.CommitTheorem` | functionsystem/src/function_agent/snapshot/local_snapshot_store.cpp:207-238 | a committed artifact is on record with the size found and keeps its directory, whatever had to make room |
| `StoreProofs.DeferredEviction` | functionsystem/src/function_agent/snapshot/local_snapshot_store.cpp:308-328 | a deferred eviction happens with the last unpin and only then |
| `StoreProofs.RecoveryTheorem` | functionsystem/src/function_agent/snapshot/local_snapshot_store.cpp:353-377 | cleanup after an instance removes its unpinned recovery candidates, marks the pinned ones and leaves all other artifacts alone |
| `StoreOutcomes.CommitOutcome` | functionsystem/src/function_agent/snapshot/local_snapshot_store.cpp:207-238 | a commit is accepted if and only if the request is well-formed and its directory usable; if no removal fails, the store is then within its limit unless all that is left is pinned or the new artifact, and what went are the least recently used artifacts that need not stay |
| `StoreOutcomes.UnpinOutcome` | functionsystem/src/function_agent/snapshot/local_snapshot_store.cpp:308-328 | without a pin nothing, with more than one a count down that keeps the mark; the last pin of a marked artifact removes it or leaves its record after a failed removal, and the last one of another keeps everything if the store is within its limit and makes room otherwise |
| `PinProofs.StepKeeps` | functionsystem/src/function_agent/agent_service_actor.cpp:1420-1556 | every handler keeps the store's pin count equal to request pins plus runtime pins, for every snapshot |
| `PinProofs.ConservationTheorem` | functionsystem/src/function_agent/agent_service_actor.cpp:1420-1556 | so does every run |
| `PinProofs.ReachableConserved` | functionsystem/src/function_agent/agent_service_actor.cpp:945-1027 | it holds in every state that a fresh agent reaches, with or without a local store |
| `PinProofs.PromoteKeeps` | functionsystem/src/function_agent/agent_service_actor.cpp:1495-1534 | promotion moves a pin, gives up the duplicate of a replay, or leaves everything in place; the count fits each time |
| `PinProofs.BindingTheorem` | functionsystem/src/function_agent/agent_service_actor.cpp:1029-1044 | a runtime's binding to its snapshot disappears exactly with a confirmed stop from the registered manager and is never replaced |
| `PinProofs.RestoredRuntimeTheorem` | functionsystem/src/function_agent/agent_service_actor.cpp:1495-1556 | over any run, until its stop is confirmed, the snapshot of a restored runtime stays pinned and its directory stays exactly as it was |
| `PinProofs.RequestPinKept` | functionsystem/src/function_agent/agent_service_actor.cpp:1015-1026 | exactly when an answer leaves the request pin in place |
| `PinOutcomes.StartedTheorem` | functionsystem/src/function_agent/agent_service_actor.cpp:945-1027 | which answers hand the pin to the runtime, which keep it with the request, and which release it, for every code and every state of the request |
| `PinOutcomes.ReleaseRequestTheorem` | functionsystem/src/function_agent/agent_service_actor.cpp:1476-1493 | with other holders left the artifact stays, marked unless local copies are kept; the last release keeps record and directory if local copies are kept, nothing marked the artifact and the store is within its limit, and removes both otherwise if the removal succeeds |
| `PinOutcomes.ReleaseRuntimeTheorem` | functionsystem/src/function_agent/agent_service_actor.cpp:1536-1556 | the same for the pin of a runtime |
| `PinOutcomes.StoppedRuntimeTheorem` | functionsystem/src/function_agent/agent_service_actor.cpp:1029-1044 | end to end over any run of a restored runtime and its confirmed stop, if nobody else holds the snapshot: the artifact is on disk as it was when the runtime started if local copies are kept, nothing marked it and the store is within its limit; it is gone with its record if local copies are not kept and the removal succeeds |
| `PinOutcomes.RegistrationTheorem` | functionsystem/src/function_agent/agent_service_actor.cpp:1685-1713 | over any run the manager is the one that registered last, and registration and completion are as the last such events say |
| `PinOutcomes.DeployingTheorem` | functionsystem/src/function_agent/agent_service_actor.cpp:295-310 | a request is deployed from its arrival, and not any more once it is dropped, for as long as nothing else happens to it |
| `SnapshotObjects.LocalSnapshotStore.EvictIfNeeded` | functionsystem/src/function_agent/snapshot/local_snapshot_store.cpp:388-404 | the loop computes the specified eviction |
| `SnapshotObjects.LocalSnapshotStore.DeleteUnlocked` | functionsystem/src/function_agent/snapshot/local_snapshot_store.cpp:406-426 | forgets record, LRU entry, pins and deferred eviction only after the directory is gone |
| `SnapshotObjects.LocalSnapshotStore.Prepare` | functionsystem/src/function_agent/snapshot/local_snapshot_store.cpp:174-205 | success means a new empty directory, or one that is on record and usable; keeps the store invariant and every pin |
| `SnapshotObjects.LocalSnapshotStore.Commit` | functionsystem/src/function_agent/snapshot/local_snapshot_store.cpp:207-238 | accepts exactly well-formed requests with a usable directory; the artifact is then on record with its directory untouched, and unless a removal fails the store is within its limit or all that is left must stay; keeps the store invariant, every pin count and every pinned directory |
| `SnapshotObjects.LocalSnapshotStore.ValidateForRestore` | functionsystem/src/function_agent/snapshot/local_snapshot_store.cpp:251-269 | accepts exactly the artifacts that can be inspected; an accepted one becomes the most recently used and the others keep their order |
| `SnapshotObjects.LocalSnapshotStore.PinForRestore` | functionsystem/src/function_agent/snapshot/local_snapshot_store.cpp:285-306 | succeeds exactly for usable artifacts, with exactly one pin more and the artifact most recently used; keeps the store invariant |
| `SnapshotObjects.LocalSnapshotStore.UnpinAfterRestore` | functionsystem/src/function_agent/snapshot/local_snapshot_store.cpp:308-328 | takes exactly one pin away if there is one; the last pin of a marked artifact takes the artifact with it, the last one of another leaves it to the limit; whatever stays pinned keeps its directory; keeps the store invariant |
| `SnapshotObjects.LocalSnapshotStore.EvictLocalArtifact` | functionsystem/src/function_agent/snapshot/local_snapshot_store.cpp:330-339 | marks a pinned artifact and keeps it; another one is gone with its record, or its removal failed and the record stays; no pin and no pinned directory changes |
| `SnapshotObjects.LocalSnapshotStore.Delete` | functionsystem/src/function_agent/snapshot/local_snapshot_store.cpp:457-469 | a pinned artifact is only marked; another one is gone with its record and LRU entry, or its removal failed and the record stays |
| `SnapshotObjects.LocalSnapshotStore.DiscardPrepared` | functionsystem/src/function_agent/snapshot/local_snapshot_store.cpp:341-351 | succeeds exactly for a safe name without a record whose directory can be removed; never touches an artifact on record or another directory |
| `SnapshotObjects.LocalSnapshotStore.DeleteRecoveryCandidatesForInstance` | functionsystem/src/function_agent/snapshot/local_snapshot_store.cpp:353-377 | goes through exactly the candidates, in some order, and stops at the first failed removal; fails only without an instance or with a failed removal; no pin and no pinned directory changes |
| `SnapshotObjects.PinAgent.ForwardStartRuntime` | functionsystem/src/function_agent/agent_service_actor.cpp:1420-1474 | which answer a start request gets, each exactly when; a forwarded restore has its snapshot pinned with its directory in place, and a refused one is no longer deployed; conserves pins and leaves runtime pins alone |
| `SnapshotObjects.PinAgent.ReleaseRestoreSnapshotPin` | functionsystem/src/function_agent/agent_service_actor.cpp:1476-1493 | afterwards the request holds no pin and runtime pins are as before; with the last pin the artifact stays if local copies are kept, nothing marked it and the store is within its limit, and goes otherwise; pins are conserved |
| `SnapshotObjects.PinAgent.PromoteRestoreSnapshotPin` | functionsystem/src/function_agent/agent_service_actor.cpp:1495-1534 | the runtime then holds the pin, or the pin stays; no runtime loses its snapshot, the artifact stays, and pins are conserved |
| `SnapshotObjects.PinAgent.ReleaseRuntimeRestoreSnapshotPin` | functionsystem/src/function_agent/agent_service_actor.cpp:1536-1556 | afterwards the runtime holds no pin and request pins are as before; with the last pin the artifact stays if local copies are kept, nothing marked it and the store is within its limit, and goes otherwise; pins are conserved |
| `SnapshotObjects.PinAgent.CompleteStartInstanceResponse` | functionsystem/src/function_agent/agent_service_actor.cpp:945-1027 | a success binds the runtime to the snapshot of its request, and the request is no longer deployed; no answer unbinds a runtime from its snapshot |
| `SnapshotObjects.PinAgent.StopInstanceResponse` | functionsystem/src/function_agent/agent_service_actor.cpp:1029-1044 | a runtime loses its snapshot if and only if the registered manager confirms its stop, and what then becomes of the artifact; pins are conserved |
| `PhaseProofs.StepInv` | functionsystem/src/function_agent/agent_service_snapshot.cpp:108-447 | every handler, with any request ID and any number of answers, keeps phases, ownership by the current incarnation and the stored local response |
| `PhaseProofs.PhaseTheorem` | functionsystem/src/function_agent/agent_service_snapshot.cpp:332-437 | in every reachable state a record belongs to the registered incarnation, publication implies a local copy that the stored response describes, an internal checkpoint is never published and a deferred one at most once |
| `PhaseLives.LifeTheorem` | functionsystem/src/function_agent/agent_service_snapshot.cpp:332-437 | over any run through which a record lives its request and incarnation stay and its phases only move forward |
| `PhaseLives.LaunchTheorem` | functionsystem/src/function_agent/agent_service_snapshot.cpp:378-394 | in the life of a record remote publication is launched at most once if and only if no answer is accepted a second time for a request that its answers launch |
| `PhaseLives.OnceTheorem` | functionsystem/src/function_agent/agent_service_snapshot.cpp:360-394 | against everything that may still happen a record is launched at most once if and only if it has not been launched twice and its request is not one that answers launch |
| `PhaseLives.FinalResponseTheorem` | functionsystem/src/function_agent/agent_service_snapshot.cpp:506-694 | a completed response stays as it is in every run in which no publication under its request ID ends and no answer that completes is accepted |
| `PhaseLives.StoredTheorem` | functionsystem/src/function_agent/agent_service_snapshot.cpp:506-593 | once a publication has been stored, the response of its record is a success with exactly the size and the digest that were stored, and where, until something writes it again |
| `PhaseLives.FinalTheorem` | functionsystem/src/function_agent/agent_service_snapshot.cpp:332-394 | a completed response is final against everything that may still happen if and only if nothing is in flight under its request ID and answers only make its request ready |
| `PhaseCareful.CarefulTheorem` | functionsystem/src/function_agent/agent_service_snapshot.cpp:108-694 | in runs without reuse of an ID in flight and without a second accepted answer: at most one launch, nothing in flight once completed, and completed responses report what was asked and stored |
| `PhaseCareful.CarefulResponseTheorem` | functionsystem/src/function_agent/agent_service_snapshot.cpp:506-694 | in such runs a completed response never changes while its record lives |
| `PhaseCareful.CompletionTheorem` | functionsystem/src/function_agent/agent_service_snapshot.cpp:506-694 | the end of a publication sends exactly one message to whoever waits for that phase, with its contents: success with what was stored, the failure with a reusable artifact whose facts are known, or the failure with which the record is forgotten; nothing else changes, and without a record nothing at all |
| `PhaseProofs.IncarnationTheorem` | functionsystem/src/function_agent/agent_service_actor.cpp:1300-1334 | in every reachable state, losing the registered incarnation or registering another one empties the table with exactly one result-unknown reply per record, to its caller; the other two events change nothing |
| `PhaseProofs.StaleTimeoutTheorem` | functionsystem/src/function_agent/agent_service_actor.cpp:1320-1325 | over any run after an incarnation was replaced, until it registers again: its timeouts change nothing and no record belongs to it |
| `PhaseProofs.ManagerInv` | functionsystem/src/function_agent/agent_service_actor.cpp:1685-1713 | registration and loss keep every record with its own incarnation |
| `PhaseReplays.ReplayTheorem` | functionsystem/src/function_agent/agent_service_snapshot.cpp:164-186 | after acceptance in any reachable state and any run through which the record lives: a request with the same ID is refused as a conflict if and only if it differs from the original with its snapshot ID and the prepared directory filled in; otherwise nothing is launched and the caller gets the local response, the completed one, or nothing yet |
| `PhaseReplays.KnownIsNoConflict` | functionsystem/src/function_agent/agent_service_snapshot.cpp:167-186 | what a recognised replay is sent is never the conflict code |
| `PhaseReplays.RetransmissionMissed` | functionsystem/src/function_agent/agent_service_snapshot.cpp:225-226 | a reachable state and a plain retransmission that is refused in it |
| `PhaseReplays.TwoLaunches` | functionsystem/src/function_agent/agent_service_snapshot.cpp:318-330 | a reachable state in which a repeated answer launches the same publication a second time |
| `PhaseReplays.ResponseReplaced` | functionsystem/src/function_agent/agent_service_snapshot.cpp:552-556 | a reachable state in which the end of an old publication changes a completed response from an error to success |
| `PhaseMessages.RequestTheorem` | functionsystem/src/function_agent/agent_service_snapshot.cpp:108-269 | a request without a record: ignored from strangers; refused with one message, its code and the word that nothing was started, for each cause; or remembered with caller, manager, storage and key, and then forwarded with its directory, answered from the local store, or launched without a message |
| `PhaseMessages.ForwardTheorem` | functionsystem/src/function_agent/agent_service_snapshot.cpp:256-269 | over any run the runtime manager is asked exactly for the accepted requests that need a checkpoint, each once, in order, with the prepared directory filled in |
| `PhaseMessages.WaitingTheorem` | functionsystem/src/function_agent/agent_service_snapshot.cpp:256-269 | in every reachable state a record that has not been answered has been forwarded, as it stands, to the manager it belongs to |
| `PhaseMessages.RegistrationTheorem` | functionsystem/src/function_agent/agent_service_actor.cpp:1685-1713 | over any run the agent is complete as the last registration message said, and its manager is the one that registered last |
| `PhaseMessages.ForgetTheorem` | functionsystem/src/function_agent/agent_service_snapshot.cpp:729-729 | finalizing an attempt makes the agent forget its record and nothing else; over any run until the request comes again, answers to it are ignored and requests to publish it are refused |
| `PhaseObjects.SnapshotAgent.SnapshotRuntime` | functionsystem/src/function_agent/agent_service_snapshot.cpp:108-269 | a request whose record lives launches nothing and no request touches another record; a new one is refused with its code and one message, or remembered, and while its record waits for an answer the request as remembered has been sent to the registered manager; keeps the phase invariant |
| `PhaseObjects.SnapshotAgent.SnapshotRuntimeResponse` | functionsystem/src/function_agent/agent_service_snapshot.cpp:271-330 | only an answer of the registered manager does anything, only to the request it names, which stays if and only if the answer is a success for its checkpoint and the store commits it; and what is sent to the caller |
| `PhaseObjects.SnapshotAgent.ContinueSnapshotAfterLocalCommit` | functionsystem/src/function_agent/agent_service_snapshot.cpp:332-395 | complete locally, wait for publication, or launch it |
| `PhaseObjects.SnapshotAgent.PublishSnapshotArtifact` | functionsystem/src/function_agent/agent_service_snapshot.cpp:397-437 | publication is launched only from a described local copy that was never launched, not completed and not started, and afterwards the record says so; what the caller is told in every case, and that the last caller is the one who waits; keeps the phase invariant |
| `PhaseObjects.SnapshotAgent.OnArtifactPublished` | functionsystem/src/function_agent/agent_service_snapshot.cpp:506-593 | one message, to whoever waits for the phase, with its contents: the response that completes the record, or the failure that ends it; and which of the two |
| `PhaseObjects.SnapshotAgent.DrainPendingPauseRequests` | functionsystem/src/function_agent/agent_service_actor.cpp:1300-1318 | the loop that erases while iterating visits every record once and computes the specified drain |
| `PhaseObjects.SnapshotAgent.MarkRuntimeManagerUnavailable` | functionsystem/src/function_agent/agent_service_actor.cpp:1320-1334 | losing the current incarnation empties the table with one reply per record; another one changes nothing |
| `PhaseObjects.SnapshotAgent.ReceiveRegister` | functionsystem/src/function_agent/agent_service_actor.cpp:1685-1713 | a new incarnation finds an empty table, with one reply per record of the old one; the same one changes nothing |
| `FinalizeChain.StepInv` | functionsystem/src/function_agent/agent_service_snapshot.cpp:696-785 | every handler keeps the order of the chain |
| `FinalizeChain.FinalizeTheorem` | functionsystem/src/function_agent/agent_service_snapshot.cpp:696-785 | a success reply means local delete done, stop of that runtime confirmed by the registered manager, and in distributed mode every key tried once in order and accepted; an error reply means it stopped at the first hard failure and says which; one reply at most; never more tries than keys |
| `FinalizeChain.ChainsTheorem` | functionsystem/src/function_agent/agent_service_snapshot.cpp:696-712 | after any run there is one chain for each finalize message of the scheduler, in order, with that message and caller; messages of others start nothing |
| `FinalizeChain.ConfigTheorem` | functionsystem/src/function_agent/agent_service_actor.cpp:1685-1713 | over any run the runtime manager is known as the last registration or loss left it, and no other setting changes |
| `FinalizeChain.AnsweredForGood` | functionsystem/src/function_agent/agent_service_snapshot.cpp:752-785 | an answered chain is never touched again |
| `FinalizeChain.KeyDecreases` | functionsystem/src/function_agent/agent_service_snapshot.cpp:769-785 | each deleted key leaves fewer to delete |
| `PhaseObjects.FinalizeAgent.SnapshotAttemptFinalize` | functionsystem/src/function_agent/agent_service_snapshot.cpp:696-750 | adds one chain whose phase is the action taken, and which action that is for every request; an immediate success means no failed local delete, no stop asked for and no remote key; the table holds exactly the waiting chains |
| `PhaseObjects.FinalizeAgent.HandleStopResponse` | functionsystem/src/function_agent/agent_service_actor.cpp:1132-1159 | only the registered manager speaking of the right runtime ends the wait; remote keys are touched or success is reported if and only if it confirms the stop |
| `PhaseObjects.FinalizeAgent.RuntimeManagerChanged` | functionsystem/src/function_agent/agent_service_actor.cpp:1712-1713 | registration and loss of the manager touch no chain and keep the chain invariant |
| `PhaseObjects.FinalizeAgent.OnPhysicalSnapshotObjectDeleted` | functionsystem/src/function_agent/agent_service_snapshot.cpp:769-785 | the next key follows an accepted result only; success means every key was tried once, in order, and accepted; keeps the chain invariant |
| `FinalizeChain.KeyMeaning` | functionsystem/src/function_agent/agent_service_snapshot.cpp:752-785 | what the action after one key says about all keys of its chain |
| `PackageProofs.StepInv` | functionsystem/src/function_agent/agent_service_actor.cpp:324-373 | every handler keeps single flight and the order in which each request deals with its packages |
| `PackageProofs.SingleFlightTheorem` | functionsystem/src/function_agent/agent_service_actor.cpp:351-372 | the in-flight table holds exactly the destinations that one request is downloading, and nobody waits for any other |
| `PackageProofs.SharedResult` | functionsystem/src/function_agent/agent_service_actor.cpp:477-498 | everybody who waits gets the downloader's result, and nobody is left waiting |
| `PackageFates.FateTheorem` | functionsystem/src/function_agent/agent_service_actor.cpp:324-373 | in every run that does not share the ID of a request: its runtime starts only if each of its packages was deployed or downloaded without error, in order; it is refused only with the error of its last download; a failure is on record exactly between that download and the reply |
| `PackageFates.StepFated` | functionsystem/src/function_agent/agent_service_actor.cpp:442-498 | every handler keeps the fate of the requests with an ID, unless it brings a second one under way with it |
| `PackageFates.SharedFailure` | functionsystem/src/function_agent/agent_service_actor.cpp:442-458 | a reachable state in which two requests shared an ID and a runtime was started although its only download failed |
| `PackageSharing.SharingTheorem` | functionsystem/src/function_agent/agent_service_actor.cpp:442-498 | a request whose ID has not been shared so far ends as its packages say, against everything that may still happen, if and only if it has ended or has been told of a failed download; any other can be spoiled by a request that gets its ID |
| `PackageProgress.EndsOnce` | functionsystem/src/function_agent/agent_service_actor.cpp:442-458 | over any run a request that was started or refused stays as it is: it gets one answer |
| `PackageProgress.NeverStuck` | functionsystem/src/function_agent/agent_service_actor.cpp:460-498 | a request that is not over can go on by itself, or waits for a download whose end, with any result, lets it go on |
| `PackageProgress.QuietTheorem` | functionsystem/src/function_agent/agent_service_actor.cpp:324-373 | when no step of a request is possible any more every request has ended |
| `PackageProgress.StepDecreases` | functionsystem/src/function_agent/agent_service_actor.cpp:341-372 | each step leaves less to do, counted by the remaining packages |
| `PackageProgress.BoundedTheorem` | functionsystem/src/function_agent/agent_service_actor.cpp:324-373 | over any run the steps of all requests are bounded by what was left to do and what arrived |
| `PackageProgress.FinishesTheorem` | functionsystem/src/function_agent/agent_service_actor.cpp:324-373 | from every reachable state, whatever the downloads bring, a bounded number of steps ends every request |
| `PackageRefers.ReferencedTheorem` | functionsystem/src/function_agent/agent_service_actor.cpp:344-358 | in every reachable state each package that a request found, awaits or has fetched, unless a delegate, is referred to by its instance, so that no sweep clears it, or has had that very reference dropped since |
| `PackageRefers.DroppedTheorem` | functionsystem/src/function_agent/agent_service_actor.cpp:1893-1904 | a reference counts as dropped only through cleaning, its release, or the refusal of a request of the same instance |
| `PackageRefers.StepRefers` | functionsystem/src/function_agent/agent_service_actor.cpp:442-458 | a reference survives an event if and only if the event does not drop that very reference |
| `PackageRefers.HeldTheorem` | functionsystem/src/function_agent/agent_service_actor.cpp:1925-1962 | over any run a referred package stays referred and is never cleared, whatever happens to other instances that share it, until that very reference is dropped |
| `PackageRefers.CountdownTheorem` | functionsystem/src/function_agent/agent_service_actor.cpp:1957-1961 | while the sweep goes on in a cleaned state its ticks are counted down |
| `PackageRefers.CleanStopsTheorem` | functionsystem/src/function_agent/agent_service_actor.cpp:2016-2021 | after a clean-up the sweep stops within three retries and one more tick |
| `PackageRefers.SuccessTheorem` | functionsystem/src/function_agent/agent_service_actor.cpp:1925-1962 | over any run after a clean-up: success if and only if one of the first three ticks finds the table empty, a time-out if and only if none does and a fourth tick follows, and no result otherwise |
| `PackageOutcomes.WalkTheorem` | functionsystem/src/function_agent/agent_service_actor.cpp:324-373 | what one handler does: a recorded failure is sent, is then off the record and takes the references to what is rebuilt with it; otherwise the packages at hand are dealt with, in order, up to the first that is not, which is awaited or downloaded, and every package taken up is referred to |
| `PackageOutcomes.RequestsTheorem` | functionsystem/src/function_agent/agent_service_actor.cpp:295-310 | after any run there is one request for each that arrived, in order, with its ID, instance and packages |
| `PackageOutcomes.SweepTheorem` | functionsystem/src/function_agent/agent_service_actor.cpp:1925-1962 | a sweep removes a package if and only if nobody refers to it, its last reference was dropped at least its grace time ago on a 64-bit clock, and its files can be cleared; any other stays as it is |
| `PackageOutcomes.AgingTheorem` | functionsystem/src/function_agent/agent_service_actor.cpp:1893-1962 | over any run after the last reference to a package was dropped and while nobody takes it up: it is removed if and only if one of the sweeps comes after its grace time and can clear it |
| `PackageObjects.PackageAgent.DownloadCodeAndStartRuntime` | functionsystem/src/function_agent/agent_service_actor.cpp:324-373 | the recursive handler ends with the request refused, started with all packages dealt with, or waiting for a destination in flight; keeps single flight, references and the fate of every request |
| `PackageObjects.PackageAgent.IsDownloadFailed` | functionsystem/src/function_agent/agent_service_actor.cpp:442-458 | refuses exactly a request with a recorded failure, with that error, which is then off the record, and without a reference left to what is rebuilt for it |
| `PackageObjects.PackageAgent.DeployInstance` | functionsystem/src/function_agent/agent_service_actor.cpp:295-310 | a new request ends refused, started or waiting, and spoils the fate of others only if its ID is that of one under way |
| `PackageObjects.PackageAgent.GetDownloadCodeResult` | functionsystem/src/function_agent/agent_service_actor.cpp:460-475 | records a failure that another request reports, then goes on until the request has ended or waits; keeps the fate of every request |
| `PackageObjects.PackageAgent.UpdateDeployedObjectByDestination` | functionsystem/src/function_agent/agent_service_actor.cpp:477-498 | the downloader goes on, everybody who waits is told the same result, the flight ends and a failure is recorded; keeps the invariants |
| `PackageObjects.PackageAgent.AddCodeRefer` | functionsystem/src/function_agent/agent_service_actor.cpp:1810-1819 | afterwards the instance refers to the package; an existing entry keeps its age and every other entry stays |
| `PackageObjects.PackageAgent.AddCodeReferByRuntimeInstanceInfo` | functionsystem/src/function_agent/agent_service_actor.cpp:1754-1808 | afterwards a reported instance refers to all its destinations and every other reference is as before; keeps the invariants |
| `PackageObjects.PackageAgent.DeleteFunction` | functionsystem/src/function_agent/agent_service_actor.cpp:1893-1904 | afterwards the instance does not refer to the package, whose age counts from now exactly if it did; every other entry stays |
| `PackageObjects.PackageAgent.RemoveCodePackageAsync` | functionsystem/src/function_agent/agent_service_actor.cpp:1925-1962 | the loop that erases while iterating removes exactly the packages that nobody refers to, that are old enough and that can be cleared; keeps the invariants |
| `PackageObjects.PackageAgent.CleanStatus` | functionsystem/src/function_agent/agent_service_actor.cpp:2016-2021 | afterwards nobody refers to anything, no entry is lost or changes its age, and the countdown is armed; keeps the invariants |
| `CacheProofs.StepInv` | scripts/executor/tasks/vendor_cache.py:93-128 | every file operation and every crash keeps the cache invariant |
| `CacheProofs.ExclusionTheorem` | scripts/executor/tasks/vendor_cache.py:293-308 | one job at a time removes, replaces or publishes an entry |
| `CacheProofs.ImmutableTheorem` | scripts/executor/tasks/vendor_cache.py:168-169 | over any run a ready entry is never modified or removed |
| `CacheProofs.NoPartialPublication` | scripts/executor/tasks/vendor_cache.py:191-210 | a marked entry is one found in the beginning or the complete output of a build, whatever crashed |
| `CacheProofs.HitTheorem` | scripts/executor/tasks/vendor_cache.py:93-101 | a job that takes an entry for ready, testing file by file without a lock, has a ready entry; every hit and every published miss is linked to one |
| `CacheProofs.PublishesWorkspace` | scripts/executor/tasks/vendor_cache.py:198-208 | what is renamed into place is exactly the workspace |
| `CacheProofs.LockHeldByLiving` | scripts/executor/tasks/vendor_cache.py:298-308 | a waiting job waits for one that is alive |
| `CacheProofs.CleanBuildTheorem` | scripts/executor/tasks/vendor_cache.py:103-111 | a build starts from an empty workspace |
| `CacheProgress.StepNearer` | scripts/executor/tasks/vendor_cache.py:93-128 | a job that no other keeps out has a step that brings it nearer to its end |
| `CacheProgress.FinishesTheorem` | scripts/executor/tasks/vendor_cache.py:93-128 | from every reachable state, whatever the builds bring, some schedule without crashes brings every job that has not crashed to a hit, a publication, a skip or a failure |
| `CacheOutcomes.JobsTheorem` | scripts/executor/tasks/vendor_cache.py:93-101 | after any run there is one job for each that was started, in order, for the same entry for good |
| `CacheOutcomes.BuildTheorem` | scripts/executor/tasks/vendor_cache.py:113-128 | over any run after a build, unless the job crashes: a complete output can only end published, linked to a ready entry, and what is renamed into place is exactly that output; an incomplete one has failed; no output is skipped |
| `CacheOutcomes.VerdictsTheorem` | scripts/executor/tasks/vendor_cache.py:93-128 | from every reachable state, whatever the builds bring, some schedule without crashes brings every job that has not built yet to a hit or to what its build leads to |
| `CacheOutcomes.MissTheorem` | scripts/executor/tasks/vendor_cache.py:103-111 | over any run a job that missed starts to build only after an entry that is not ready was removed, or another job had made it ready |
| `CacheOutcomes.NoRebuildTheorem` | scripts/executor/tasks/vendor_cache.py:93-101 | over any run a job whose entry is ready when it starts never builds and can only end with a hit, unless it crashes |
| `CacheOutcomes.CrashTheorem` | scripts/executor/tasks/vendor_cache.py:293-308 | a crash leaves the cache and every other job as they are; over any run after it the job and its workspace stay as they were, and the job holds no lock |
| `VendorObjects.VendorCacheManager.PrepareWorkspace` | scripts/executor/tasks/vendor_cache.py:93-111 | hits and misses split the targets; hits end linked, misses lose entry and workspace, ready entries are untouched |
| `VendorObjects.VendorCacheManager.PublishWorkspace` | scripts/executor/tasks/vendor_cache.py:113-128 | up to the first failure every miss with an output, directory or link, ends linked to a ready entry and the others are skipped; a directory fails only if it is incomplete; ready entries are untouched |
| `VendorObjects.VendorCacheManager.PublishTarget` | scripts/executor/tasks/vendor_cache.py:116-127 | one miss: what is skipped, what is published and linked, and that it fails only over an incomplete output or a link to the entry to be replaced |
| `VendorObjects.VendorCacheManager.PublishDirectory` | scripts/executor/tasks/vendor_cache.py:191-210 | publishes a valid tree and leaves a ready entry alone |
| `VendorObjects.VendorCacheManager.IsCacheReady` | scripts/executor/tasks/vendor_cache.py:168-169 | marker and all required files |
| `VendorObjects.VendorCacheManager.IsTargetOutputValid` | scripts/executor/tasks/vendor_cache.py:171-177 | all required files |
| `Aids.FindScheme` | common/litebus/src/actor/aid.cpp:30-30 | the first occurrence of the separator, or none if it does not occur |
| `Aids.FindLast` | common/litebus/src/actor/aid.cpp:140-140 | the last occurrence of a character, or none |
| `Aids.EquivalenceTheorem` | common/litebus/include/actor/aid.hpp:128-136 | equality is an equivalence relation and equal addresses hash alike, on all strings |
| `Aids.HashDecides` | common/litebus/include/actor/aid.hpp:99-102 | any two addresses are equal if and only if their hash strings and name lengths are the same and both are TCP addresses or have the same url |
| `Aids.UnequalUnordered` | common/litebus/include/actor/aid.hpp:128-136 | the same host and port with UDP and without a protocol: unequal addresses with the same hash string |
| `Aids.NumberRoundTrip` | common/litebus/src/actor/aid.cpp:155-163 | reading a printed number gives it back |
| `Aids.PortTheorem` | common/litebus/src/actor/aid.cpp:149-168 | the port is the number behind the last colon, with spaces and a sign before it and anything behind it, in 64-bit arithmetic; a number that is no port and a text that is no number is 0 |
| `Aids.ParseTheorem` | common/litebus/src/actor/aid.cpp:52-63 | parsing recovers name, protocol, host and port, without a protocol, with TCP and with UDP |
| `Aids.CopyTheorem` | common/litebus/include/actor/aid.hpp:47-50 | a copy equals its original if and only if the url does not start with "tcp://", or has a host and a port and no further scheme behind it |
| `Aids.PrintParseTheorem` | common/litebus/include/actor/aid.hpp:91-94 | printing and parsing gives an equal address if and only if the name has no '@' and a copy would be equal |
| `Aids.CopyMayDiffer` | common/litebus/src/actor/aid.cpp:28-36 | an address as parsing makes it whose copy is not equal to it |
| `Aids.SetProtocolTheorem` | common/litebus/src/actor/aid.cpp:102-116 | the protocol set is the protocol read, and going back to TCP restores the url |
| `Aids.ProtocolTheorem` | common/litebus/src/actor/aid.cpp:102-116 | when the protocol read is the one set; and that host and port stay if and only if that protocol is set already, or there is a colon behind the old scheme and, for TCP, no further scheme |
| `Aids.HostMayChange` | common/litebus/src/actor/aid.cpp:102-116 | a parsed address without a port whose host becomes `udp://h` when UDP is set |
| `Aids.AidObject.FromString` | common/litebus/src/actor/aid.cpp:52-63 | the parsed address; its name has no '@', and what it prints parses back to an equal address exactly if its url is settled |
| `Aids.AidObject.Copy` | common/litebus/include/actor/aid.hpp:47-50 | strips once more; equal to the original exactly under the stated condition |
| `Aids.AidObject.Assign` | common/litebus/src/actor/aid.cpp:93-100 | assignment, unlike copying, is always equal |
| `Aids.AidObject.SetUrl` | common/litebus/include/actor/aid.hpp:55-59 | the address then equals the one with the given url exactly if that url is settled |
| `Aids.AidObject.ChangeProtocol` | common/litebus/src/actor/aid.cpp:102-116 | when the protocol read is the one set; and that host and port stay exactly under the condition on the old url |

## Left out

- Actors with a thread of their own (`SingleThread`) and every wait on a condition variable; a blocked thread is a step that is not enabled.
- Message contents, filters, signatures and remote delivery; a message that a filter drops counts as handled.
- ActorObjects.ActorBase.Run: states what happens when no sender interferes; interference is covered by the transition system.
- ActorObjects.ActorThread.Run: states what happens for a worker alone with the queue; several workers are covered by the transition system.
- ActorObjects.ActorMgr.Add: refuses a name that is taken; the source ends the process there.
- `Future::Clear` called from outside, `WaitFor`, blocking `Get` and the timers behind `After`.
- Abandonment across futures: `Abandon` and `OnAbandoned` are proved for one future, not through chains.
- FutureTheorems.CollectTheorem: speaks of results that the collect itself settled; a result settled through the public setters of its future is whatever that caller gave.
- FutureTheorems.ThenFoldTheorem: likewise speaks of chains whose futures nobody else settled.
- FutureObjects.Collected.Discarded: does not run the callbacks of the inputs that it fails; the transition system does.
- Associating a promise with an empty future handle; the model has no empty handles.
- The tuple form of `Collect`, which is built from `Then` and the list form.
- The byte count of the snapshot store is unbounded; 64-bit overflow is not modelled.
- The index into the LRU list is not modelled separately from the list, and metadata of records beyond size, instance and recovery flag is left out.
- SnapshotObjects.LocalSnapshotStore.Prepare: gives one code for every failed inspection; the source distinguishes several.
- Symbolic links, permissions and the recursive walk inside a checkpoint directory; an inspection yields a size or nothing.
- Deploying code, plugin references, port mappings and everything else in the handlers that touch pins.
- Addresses of managers and callers are compared as pairs of names, not through the address equality of `Aids`.
- Snapshot responses carry only the fields that the phases set; times, time-to-live and formats are left out.
- Which destinations are rebuilt when the references of a failed request are dropped, or derived from what a registering manager reports; they are parameters.
- How a snapshot ID is derived and which ones are safe; both are parameters.
- Retries inside one download; a download ends with one result.
- Removal of a vendor cache directory is taken to succeed in the end; cache keys are opaque and every target has required files.
- Host name lookup and the validity test of an address (`AID::OK`).
- Launchers, flags, metrics, quotas, the Go runtime launcher and the build scripts other than the vendor cache: short case analysis or input and output.
