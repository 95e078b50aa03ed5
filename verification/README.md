# Ceph-CSI: a verified model

This project models the parts of the Ceph-CSI repository that are hardest to get right by reading, and
proves what they keep. Most of them belong to the end-to-end suite in `e2e/`, which has concurrent
orchestration, polling protocols and text parsers of its own; four belong to the driver under
`internal/`. `dafny verify dfyconfig.toml` checks everything.

| file | models |
|---|---|
| `PodChurn.dfy` | the concurrent pod batches of the NVMe-oF tests as a transition system, and its invariant |
| `PodChurnRuns.dfy` | what holds of every interleaving and every pattern of failures |
| `PodChurnProgram.dfy` | termination, and the orchestrator as a program whose actions are steps of that system |
| `PodChurnPaths.dfy` | which way a run goes: refusals, cleanup, further batches |
| `Workers.dfy` | the goroutine pool with its error slice and WaitGroup |
| `RefTracker.dfy` | lock-free reference tracking in a RADOS object as a transition system, and its invariant |
| `RefTrackerRuns.dfy` | linearizability, progress, and the runs that end badly |
| `Journal.dfy` | the omap journal that makes creation idempotent: interleaving, crashes, separate pools |
| `GroupLock.dfy` | group mutual exclusion with a mutex and two condition variables |
| `Polling.dfy` | the polling waits and the delete-and-confirm protocols |
| `IoMax.dfy` | cgroup `io.max`: the driver's writer, the test's reader, device numbers |
| `VolumeId.dfy` | CSI identifiers |
| `CliErrors.dfy`, `CephVersion.dfy`, `Metrics.dfy` | the parsers of kubectl errors, Ceph versions and kubelet metrics |
| `ClusterConfig.dfy`, `StorageClasses.dfy`, `Deployments.dfy` | loops over Go maps, and the update of a container flag |
| `GoStrings.dfy`, `Numerals.dfy` | Go's string and number functions, and their laws |
| `Options.dfy`, `Sets.dfy` | an optional value; sizes of sets |

## How the parts are modelled

**Concurrent code** is a transition system. A step is one indivisible action of one goroutine (an API
call, a RADOS or omap operation, one statement under a mutex) with its outcome; a run is any sequence of
enabled steps. Theorems about runs therefore hold for every scheduling and every pattern of failures. A
call may be reported as failed and have taken effect.

**Go maps** are iterated in an arbitrary order, so that a result holds for every order. **Polling** with
`PollUntilContextTimeout` and immediate start takes at least one sample, stops at the first that says so
or fails, and otherwise ends with an error of the "interrupted" class. **I/O** is a parameter: the
outcome of each call, the samples, the bytes read. The orchestrator as a program takes the
cluster's answers as a function. Map entries, byte slices and `int64`, `uint32` and
`uint16` arithmetic follow Go, overflow and slice panics included.

What the models assume of their environment:

- Pod base names are fresh per batch (UUIDs), and a pod reaches Running only if it and its PVC exist.
- RADOS never hands out an object version twice.
- Generated volume UUIDs are fresh, request names are not empty, and the operations on one request name
  exclude each other, as the journal demands of its callers.
- Objects that have been deleted are not created again (for the delete protocols only).

## Findings

Each of these is proved; the lemma in brackets gives the exact condition.

- The guard of `mixedCreateDeletePodsOnly` accepts a `totalCount` of zero or below. The first batch is
  created all the same, without PVCs [`FirstBatchWithoutPvcs`], and no such run can succeed
  [`NilIsPossibleIff`].
- A first probe that itself times out makes both `waitForRBDImageFlattened` and
  `ensureRBDImageHasParent` return nil, because the timeout of the probe cannot be told from the timeout
  of the wait and no reason has been recorded yet [`Duality`, `WaitedIff`, `UnansweredPassesBoth`].
- `TryRADOSAborted` returns nil for an errno it does not know, so a reference tracker whose object is
  deleted between a writer's two reads hands that writer neither a result nor an error
  [`CrashIffDeleted`, `ConcurrentDeleteCrashes`].
- A process that dies between writing the directory key and the back pointer of a volume leaves a name
  that can be neither used nor reserved again, while the comment at the top of the journal promises a
  clean-up; snapshots do recover [`RecoveryIff`].
- With separate journal and image pools, `ReserveName` writes the back pointer in the journal pool, so
  that the next check refuses a volume that was reserved successfully if the directory names the image
  pool [`RecoveryIff`]. It also gives the pools to the deferred undo in the wrong order: a reservation
  that fails at its last operation then keeps what it has written, and takes away the link that the
  same name has in the directory of the image pool, a complete reservation included
  [`GivenUpIsUndoneIff`, `GivingUpDestroys`, `DestroyedReservation`].
- `DecomposeCSIID` panics on an announced cluster ID length of 65535, and looks at lengths modulo 2^16
  only [`PanicsIff`, `PanicExample`, `VolumeId.AcceptedIff`].
- Parsing a version without a build leaves the build of the receiver as it was
  [`FreshReceiverRecoversAll`].
- `waitForContainersArgsUpdate` compares arguments with the bare key, so an earlier `--key=value` is
  never replaced and repeating the update always changes the arguments [`OldFlagSurvives`,
  `NeverIdempotent`].
- `getStdErr` finds the section that was framed exactly when no `error:` line precedes it
  [`GetStdErrOfFrame`].

## Model

| member | source | states |
|---|---|---|
| PodChurn.InvStep | e2e/nvmeof_helper.go:210-416 | Every action of every goroutine, with any outcome, keeps the invariant: pods mount their batch's slice of the PVCs, deletions are counted, a deleted pod is gone, and every failure is on record in an error slot, in allErrors or in the exit taken. |
| PodChurn.FailuresNone | e2e/nvmeof_helper.go:121-127 | The failure count is positive exactly when some slot holds an error. |
| PodChurnRuns.RunInv | e2e/nvmeof_helper.go:210-416 | The invariant holds in every state of every run. |
| PodChurnRuns.ClaimedAtMostOnce | e2e/nvmeof_helper.go:103-117 | Over a whole run no PVC index is claimed by two pods, no pod is created twice, and indices stay in range. |
| PodChurnRuns.CompletedClaimsAll | e2e/nvmeof_helper.go:303-331 | A run past the batch loop has claimed exactly the indices 0 to totalCount-1, even if operations failed on the way. |
| PodChurnRuns.DeletedExactlyOnce | e2e/nvmeof_helper.go:239-252 | On every return after the PVC loop, each PVC and each pod of each started batch has had exactly one deletion attempt; a return before that has deleted nothing and created no pod. |
| PodChurnRuns.NilIffNothingFailed | e2e/nvmeof_helper.go:379-416 | nil is returned exactly when no operation of the run failed, and then no pod and no PVC is left. |
| PodChurnRuns.ErrorsCounted | e2e/nvmeof_helper.go:336-410 | Past the batch loop the number of errors that is reported is the number of operations of the run that failed. |
| PodChurnRuns.FirstBatchWithoutPvcs | e2e/nvmeof_helper.go:275-275 | For every accepted totalCount of zero or below, a run that creates a pod while no PVC exists at any time. |
| PodChurnPaths.FirstBatchFailureStops | e2e/nvmeof_helper.go:275-285 | After a failed create step of the first batch no later state has another batch or a pod of one, and the only way out is cleanup. |
| PodChurnPaths.JoinContinuesIff | e2e/nvmeof_helper.go:275-361 | When a batch has been created the run waits for its pods, except in the first batch exactly when one of its create steps has failed: then it cleans up. |
| PodChurnPaths.CleanupIff | e2e/nvmeof_helper.go:275-373 | A run returns by way of cleanup exactly if a create step of the first batch or a wait for a pod has failed. |
| PodChurnPaths.CleanupReportsNothing | e2e/nvmeof_helper.go:239-252 | Failures during cleanup are not added to the reported errors. |
| PodChurnPaths.EarlyIff | e2e/nvmeof_helper.go:215-265 | A run returns before the first batch exactly with a batchSize that is not positive or does not divide totalCount, a template that cannot be loaded or a PVC that cannot be created. |
| PodChurnPaths.PvcsAtFirstBatch | e2e/nvmeof_helper.go:255-275 | The first batch starts with exactly the PVCs 0 to totalCount-1. |
| PodChurnPaths.NextBatchIff | e2e/nvmeof_helper.go:222-303 | Another batch is started exactly while totalCount is not used up; otherwise the final deletion begins. |
| PodChurnPaths.BoundIsReached | e2e/nvmeof_helper.go:303-334 | With two batches or more there is a run without any failure in which two whole batches are alive at once. |
| PodChurnRuns.LivePodsBounded | e2e/nvmeof_helper.go:303-334 | While no deletion has failed, at most two batches of pods are alive at any step. |
| PodChurnRuns.LivePodsAtLoopHead | e2e/nvmeof_helper.go:356-377 | While nothing has failed, exactly the pods of the last batch are alive when the next iteration begins. |
| PodChurnProgram.StepsDescend | e2e/nvmeof_helper.go:210-416 | Every action lowers a lexicographic measure of the work left. |
| PodChurnProgram.NeverStuck | e2e/nvmeof_helper.go:119-119 | Before it returns, no reachable state is a deadlock. |
| PodChurnProgram.EveryExecutionReturns | e2e/nvmeof_helper.go:210-416 | Every execution that keeps moving returns, whatever the scheduler and the cluster do. |
| PodChurnProgram.CanSucceed | e2e/nvmeof_helper.go:255-406 | As long as nothing has failed, the next operation can succeed. |
| PodChurnProgram.NilIsPossibleIff | e2e/nvmeof_helper.go:215-220 | Some run returns nil exactly when batchSize is positive and totalCount is a positive multiple of it. |
| PodChurnProgram.Orchestrator.Run | e2e/nvmeof_helper.go:210-416 | The program's every action is a step of the system; it returns, answers nil exactly when nothing failed, leaving nothing behind; it answers nil whenever the arguments are right and the cluster refuses nothing, and never after a refusal. |
| PodChurnProgram.Orchestrator.Ask | e2e/nvmeof_helper.go:210-416 | An operation on the cluster takes one step of the system, and its answer decides whether the run is still sound. |
| PodChurnProgram.Orchestrator.CreatePvcs | e2e/nvmeof_helper.go:215-265 | Either every PVC has been created or the run has returned with an error. |
| PodChurnProgram.Orchestrator.JoinBatch | e2e/nvmeof_helper.go:303-334 | Under any scheduling the create and delete workers of a batch all finish. |
| PodChurnProgram.Orchestrator.CreatePodStep | e2e/nvmeof_helper.go:103-117 | One worker of the creation pool takes its next step, which lowers the measure. |
| PodChurnProgram.Orchestrator.DeletePodStep | e2e/nvmeof_helper.go:156-162 | One worker of the deletion pool takes its next step, which lowers the measure. |
| PodChurnProgram.Orchestrator.WaitForPods | e2e/nvmeof_helper.go:289-299 | Either every pod of the batch is running or cleanup has begun. |
| PodChurnProgram.Orchestrator.DeletePodsAndPvcs | e2e/nvmeof_helper.go:379-410 | Final deletion and cleanup alike get to a return. |
| Workers.RunWorkers | e2e/nvmeof_helper.go:99-134 | For every scheduling the slice ends up as the workers' own outcomes, each slot written once; failed is the number of slots with an error; and the returned trace shows the counter to be the number of unfinished workers at every moment, down to zero. |
| Workers.Pool.Finish | e2e/nvmeof_helper.go:104-116 | A worker that ends fills its own slot and lowers the counter with the set of unfinished workers. |
| Workers.CountFailures | e2e/nvmeof_helper.go:166-172 | The failed counter is the number of errors in the slice. |
| RefTracker.AddDecision | internal/util/reftracker/v1/v1.go:96-144 | What Add writes is the tracked keys with the missing ones added and a refcount equal to the number of Normal keys; it is refused exactly when that count would not fit in 32 bits. |
| RefTracker.RemoveDecision | internal/util/reftracker/v1/v1.go:148-236 | What Remove writes is the keys after removal and masking with the right refcount; the object is deleted exactly when no Normal key would be left. |
| RefTracker.DecisionIsAtomic | internal/util/reftracker/reftracker.go:125-219 | The decision taken from a read has the effect and the answer of the atomic tracker. |
| RefTracker.AtomicAdd | internal/util/reftracker/reftracker.go:125-128 | Adding, key by key: every key is tracked afterwards, tracked keys stay as they were, and the answer tells whether the tracker is new. |
| RefTracker.AtomicRemove | internal/util/reftracker/reftracker.go:174-177 | Removing, key by key: Normal removals forget, masks mask, and the tracker is gone exactly when every Normal key was named. |
| RefTracker.DocumentedExample | internal/util/reftracker/reftracker.go:42-123 | The documented sequence of five calls, with the contents and answers it shows. |
| RefTrackerRuns.WriteIsAtomic | internal/util/reftracker/v1/v1.go:218-231 | In every run a write whose version assertion holds has the contents, the answer and the log entry of the atomic operation, however long ago its keys were read. |
| RefTracker.InvStep | internal/util/reftracker/v1/v1.go:69-236 | Every RADOS operation of every writer, answered or lost, keeps the invariant. |
| RefTrackerRuns.Linearizable | internal/util/reftracker/reftracker.go:125-219 | In every run the object is the atomic tracker after the logged operations; each of them was started with that request, is logged once and was answered as the tracker answers; acknowledged ones are logged with the answer their callers got; the log keeps the order of operations of which one ended before the other began; and the refcount is the number of Normal keys. |
| RefTrackerRuns.RealTimeOrder | internal/util/reftracker/reftracker.go:125-219 | An operation that ended before another began comes before it in the log. |
| RefTrackerRuns.FailsOnlyForOthers | internal/util/reftracker/reftracker.go:129-219 | An operation whose last RADOS operation is answered fails only for want of keys, for an overflow, or because another operation changed the object since its version was read; and then it has changed nothing itself. |
| RefTrackerRuns.EndOutcome | internal/util/reftracker/v1/v1.go:257-259 | A caller is left with neither result nor error exactly by a keyed read that was lost or found no object, and none is told that a lost operation went well. |
| RefTrackerRuns.EmptyRefused | internal/util/reftracker/reftracker.go:226-248 | A request is refused at its start exactly if it has no keys, and the start changes nothing. |
| RefTrackerRuns.NeverUnderflows | internal/util/reftracker/v1/v1.go:206-209 | In no run is the branch that reports a corrupted refcount taken. |
| RefTracker.Idempotent | internal/util/reftracker/reftracker.go:125-219 | Repeating a request, as after a lost answer, changes nothing. |
| RefTracker.AloneIsAtomic | internal/util/reftracker/reftracker.go:129-219 | An undisturbed operation does and answers what the atomic tracker does, or refuses an overflow. |
| RefTrackerRuns.AloneIsReached | internal/util/reftracker/reftracker.go:129-219 | In every run the answered steps of an operation that nobody disturbs lead to the state that the row above speaks of. |
| RefTracker.CreatedCount | internal/util/reftracker/v1/v1.go:69-93 | The refcount of a new object is right exactly for fewer than 2^32 keys. |
| RefTrackerRuns.VersionWasRead | internal/util/reftracker/reftracker.go:189-204 | An operation under way read the version it holds in an earlier step of the run, and saw the object then, or its absence. |
| RefTrackerRuns.CrashIffDeleted | internal/util/reftracker/v1/v1.go:257-259 | In every run an answered keyed read yields neither result nor error exactly when, after the version was read, a write removed the object and nobody has created it again. |
| RefTrackerRuns.ConcurrentDeleteCrashes | internal/util/reftracker/errors/errors.go:63-84 | A run in which every RADOS operation is answered and an Add ends that way. |
| Journal.InvStep | internal/journal/voljournal.go:293-685 | Every omap operation, done, refused or done unseen, and every crash keep each pointer with the request its UUID was made for. |
| Journal.NeverLinkedTwice | internal/journal/voljournal.go:93-97 | In every run, whatever pools the requests use, no two request names are linked to the same volume at any moment. |
| Journal.NeverShared | internal/journal/voljournal.go:93-97 | Two requests that reserve or find the same volume, at whatever moments of a run, are the same request. |
| Journal.CheckedIsReached | internal/journal/voljournal.go:293-428 | The steps of an undisturbed check lead to the state and answer that the theorems below speak of. |
| Journal.CheckTells | internal/journal/voljournal.go:314-383 | In every reachable state and for every pool, a check finds a complete reservation, refuses a half-made volume as it is, and frees any other name. |
| Journal.AnswersAreTrue | internal/journal/voljournal.go:293-428 | In every run, whatever fails or is done meanwhile by others: a check that says unreserved leaves no key in its pool, one that finds a volume is right, one that reports an inconsistency has met a half-made volume, and it reports a failure exactly when its last operation failed. |
| Journal.ReserveOutcome | internal/journal/voljournal.go:590-685 | ReserveName succeeds exactly with its last operation, undoes nothing if an earlier one fails, and begins the undo exactly if the last one fails. |
| Journal.UndoOutcome | internal/journal/voljournal.go:445-487 | An undo that meets a failure stops there: the object goes first and the directory key only after it. |
| Journal.OthersDoNotDisturb | internal/journal/voljournal.go:93-94 | Operations on other names leave a name's link, and the object it leads to, as they are. |
| Journal.ReservationLasts | internal/journal/voljournal.go:96-97 | A complete reservation lasts through any run of other requests and of repeated checks of its own name, crashes and refused reads included, and each of these checks that gets to read the object answers with the same volume. |
| Journal.SuccessIsComplete | internal/journal/voljournal.go:679-684 | In every run a ReserveName that succeeds without naming another pool leaves a complete reservation of its UUID. |
| Journal.SameRequestSameVolume | internal/journal/voljournal.go:96-97 | In every run, after a successful ReserveName, each repetition of the request that gets to read the object is told the volume that was reserved. |
| Journal.DiedIsReached | internal/journal/voljournal.go:590-685 | Each of the four stores that a death inside ReserveName can leave, for any pools, is reached by steps of the protocol. |
| Journal.RecoveryIff | internal/journal/voljournal.go:363-383 | For every point of death and every pair of pools, success included: the next check finds, frees or refuses the name; it refuses exactly for a volume whose directory key leads to an object without a back pointer, and finds exactly what was completed without naming another pool. |
| Journal.GivenUpIsReached | internal/journal/voljournal.go:627-635 | The deferred undo, with its pools in the other order, leads to the store that the next row speaks of. |
| Journal.GivenUpIsUndoneIff | internal/journal/voljournal.go:627-635 | A reservation that fails at its last operation leaves no trace exactly when the two pools are the same and the name had no key; with separate pools it removes nothing of its own, and exactly the key that the name has in the image pool. |
| Journal.GivingUpDestroys | internal/journal/voljournal.go:627-635 | With separate pools, a complete reservation of the same name in the image pool loses its key, its object stays, and the next check takes the name for unreserved. |
| Journal.DestroyedReservation | internal/journal/voljournal.go:627-635 | A run in which that happens. |
| GroupLock.InvStep | internal/util/lock/group_lock.go:61-114 | Every statement of every goroutine keeps: the mutex has one owner, each counter is its number of members, at most one group is active, and a sleeper has a reason to sleep. |
| GroupLock.MutualExclusion | internal/util/lock/group_lock.go:27-29 | In every run, two goroutines that are both active have asked last for the same group. |
| GroupLock.LabelIsAsked | internal/util/lock/group_lock.go:61-114 | From asking for a group to leaving it, a goroutine is treated as one of the group it asked for. |
| GroupLock.OnlyTheOtherGroupBlocks | internal/util/lock/group_lock.go:66-69 | No wake-up is lost: when no goroutine can move by itself, whoever is still kept waiting is kept by an active goroutine that has asked for the other group. |
| GroupLock.OwnStepsDescend | internal/util/lock/group_lock.go:61-114 | Every step that no caller asked for leaves fewer goroutines that may wake others, or less to do. |
| GroupLock.BecomesQuiet | internal/util/lock/group_lock.go:61-114 | From every reachable state, whatever the scheduler does, a lock left alone gets to such a state. |
| GroupLock.SameGroupEnters | internal/util/lock/group_lock.go:58-72 | An operation at the test enters whenever the other group is inactive. |
| Polling.ExecProbe | e2e/pod.go:238-258 | A probe is answered by its first attempt that is not retried, and times out if there is none. |
| Polling.ProbeOutcome | e2e/pod.go:238-258 | A probe reports its first attempt that is not to be retried: its output, its error, or an unreadable answer; and a timeout if there is none. |
| Polling.WaitFlattened | e2e/rbd_helper.go:1266-1289 | The loop reports what the specification of a wait says of its samples. |
| Polling.WaitInTrash | e2e/rbd_helper.go:1240-1264 | The same for an image that is to appear in the trash listing. |
| Polling.EnsureHasParent | e2e/rbd_helper.go:1291-1316 | The same for an image that must keep its parent until the deadline. |
| Polling.WaitedIff | e2e/rbd_helper.go:1240-1289 | A wait returns nil exactly when what it waits for was seen before any error, or its first probe timed out; and it passes on exactly a plain error that ends it. |
| Polling.FlattenedIff | e2e/rbd_helper.go:1266-1289 | The wait for a flattened image returns nil exactly when a sample has no parent and each before it has one, or the first probe timed out. |
| Polling.InTrashIff | e2e/rbd_helper.go:1240-1264 | The wait for an image in the trash returns nil exactly when a listing has it and each before it does not, or the first probe timed out. |
| Polling.RetainedIff | e2e/rbd_helper.go:1291-1316 | Insisting on a parent: what each outcome means, nil being the absence of any sample that ends the wait other than a timeout. |
| Polling.Duality | e2e/rbd_helper.go:1266-1316 | On the same samples exactly one of the two parent waits returns nil, unless a plain probe error ends both or the first probe times out, which passes both. |
| Polling.DecidedByAnySample | e2e/rbd_helper.go:1266-1316 | Without probe errors the verdicts are decided by whether some sample has no parent. |
| Polling.UnansweredPassesBoth | e2e/rbd_helper.go:1394-1400 | A toolbox pod that answers no attempt of the first probe makes both waits return nil. |
| Polling.ConfirmAbsent | e2e/pvc.go:158-188 | The loop succeeds exactly when NotFound was seen after nothing but presence and transient errors. |
| Polling.DeletePvcAndPv | e2e/pvc.go:143-217 | nil exactly when both delete calls were accepted and both objects were seen to be gone. |
| Polling.Fetch | e2e/pvc.go:221-273 | The object is returned exactly when it was seen after nothing but transient errors. |
| Polling.DeletePvcAndValidatePv | e2e/pvc.go:291-354 | nil exactly when both objects were found, the delete was accepted and one round saw both gone. |
| Polling.ConfirmedMeansGone | e2e/pvc.go:143-217 | Where nothing is recreated, a nil from deletePVCAndPV means that both objects are absent at return. |
| Polling.RoundConfirmedMeansGone | e2e/pvc.go:314-353 | The same for deletePVCAndValidatePV. |
| IoMax.StatRoundTrip | e2e/rbd_helper.go:2207-2231 | Hexadecimal device numbers below 2^63 become exactly their decimal ID. |
| IoMax.DeviceIdInjective | e2e/rbd_helper.go:2231-2231 | Different devices have different IDs. |
| IoMax.VerifyIoMax | e2e/rbd_helper.go:2273-2326 | For every iteration order: nil exactly when the device's line exists and meets the wants, and each error names a parameter that is indeed missing or different. |
| IoMax.PrefixIsDevice | e2e/rbd_helper.go:2283-2291 | A line is taken for a device's exactly when it begins with that device, before a space or a tab, even if one ID is a prefix of another. |
| IoMax.LookupIn | e2e/rbd_helper.go:2283-2291 | The line found in a rendered table is that of the device asked for, or none if it has none. |
| IoMax.AcceptedIff | e2e/rbd_helper.go:2273-2326 | On the rendering of any table of distinct devices the reader accepts exactly when the device is present and every recognised want equals its limit. |
| IoMax.MeetsIff | e2e/rbd_helper.go:2274-2323 | The four parameters are looked up under riops, wiops, rbps and wbps, and any other is ignored. |
| IoMax.LastLimitCounts | e2e/rbd_helper.go:2297-2305 | Of several values for a field the last one counts. |
| IoMax.PaddedLine | e2e/rbd_helper.go:2284-2291 | White space around a line makes no difference, and the first line of the device is taken. |
| IoMax.TrailingNewline | e2e/rbd_helper.go:2284-2291 | Nor does the newline at the end of the file. |
| IoMax.StatShape | e2e/rbd_helper.go:2215-2231 | What is accepted as a device number, and what becomes of it. |
| IoMax.FormatIsLine | internal/rbd/cgroup_qos.go:211-214 | The driver's line is a line of the format. |
| IoMax.QosEntryValid | internal/rbd/cgroup_qos.go:299-317 | Parameters that pass validation render to a line that can be read back. |
| IoMax.QosEntryLimits | internal/rbd/cgroup_qos.go:158-180 | The driver's line meets a set of wants exactly when each equals the effective parameter. |
| IoMax.DriverAndReaderAgree | internal/rbd/cgroup_qos.go:431-456 | End to end, for validated parameters and any valid table of other devices: the reader, which finds the device through stat, accepts exactly when the driver was given the wanted limits. |
| IoMax.DriverLimits | internal/rbd/cgroup_qos.go:158-180 | The same for one parameter, in terms of what the caller gave: its value, or no limit if it is absent or empty. |
| IoMax.DriverText | internal/rbd/cgroup_qos.go:158-214 | The driver's line, field by field, in terms of the caller's parameters. |
| IoMax.ValidatedIff | internal/rbd/cgroup_qos.go:299-317 | Validation passes exactly if each limit that is given and not empty is max or a number that is not negative. |
| VolumeId.RoundTrip | internal/util/volid.go:78-168 | What is composed is recovered, with the default version filled in. |
| VolumeId.ComposedIff | internal/util/volid.go:78-90 | An identifier can be composed exactly if its cluster ID has at most 64 bytes and its UUID has 36. |
| VolumeId.ComposedText | internal/util/volid.go:66-109 | What the text holds, piece by piece: version (0001 by default), length, cluster ID, location in two's complement, UUID. |
| VolumeId.AcceptedFields | internal/util/volid.go:114-168 | What is decoded from an accepted text, piece by piece. |
| VolumeId.ComposeInjective | internal/util/volid.go:78-109 | Identifiers that differ in more than the default version have different texts. |
| VolumeId.PanicsIff | internal/util/volid.go:134-141 | Decoding panics exactly for an announced length of 65535. |
| VolumeId.PanicExample | internal/util/volid.go:134-141 | A text of 64 bytes that makes it panic. |
| VolumeId.AcceptedIff | internal/util/volid.go:114-168 | The texts that are accepted. |
| VolumeId.CanonicalIff | internal/util/volid.go:78-168 | Composing what was decoded gives the same text exactly for canonical texts. |
| VolumeId.HexOfValue | internal/util/volid.go:122-156 | Reading and rewriting digits gives the same text exactly for lower case. |
| CliErrors.FirstStdErr | e2e/errors.go:92-111 | The stderr delimiter first occurs where the frame puts it, since it does not overlap itself. |
| CliErrors.NoErrorBefore | e2e/errors.go:92-111 | No error delimiter begins in, ends in or overlaps the stderr delimiter. |
| CliErrors.GetStdErrOfFrame | e2e/errors.go:92-111 | The framed section is returned exactly when no error delimiter precedes it. |
| CliErrors.GetStdErrIsFramed | e2e/errors.go:92-111 | Whatever non-empty section is returned was framed that way. |
| CliErrors.EveryLineCarries | e2e/errors.go:124-140 | The loop answers whether every line that is neither blank nor a warning carries the marker. |
| CliErrors.IsCliError | e2e/errors.go:114-201 | True exactly when there is an error, its section is not empty and every such line carries the marker. |
| CliErrors.VerdictSplits | e2e/errors.go:114-201 | The verdict on two texts joined by a newline is the conjunction of the verdicts. |
| CliErrors.ReportVerdict | e2e/errors.go:92-201 | A framed report of one line per problem is recognised exactly when each line that is neither blank nor a warning carries the classifier's own marker. |
| CephVersion.Receiver.UnmarshalJson | e2e/ceph.go:57-99 | The receiver's fields become what the specification says, also when parsing stops half way. |
| CephVersion.ReportParsed | e2e/ceph.go:57-99 | Parsing what Ceph prints recovers every field, builds with dots and dashes included. |
| CephVersion.FreshReceiverRecoversAll | e2e/ceph.go:57-99 | It recovers all of them exactly when there is a build or the receiver had none. |
| CephVersion.EquivalentIffSameNumber | e2e/ceph.go:121-134 | Two versions are each at least the other exactly when String prints the same number for both. |
| CephVersion.NewerIsGreater | e2e/ceph.go:121-134 | A version that is newer in its first different number is at least the other, and not the other way round. |
| CephVersion.TotalOrder | e2e/ceph.go:121-134 | The comparison is a total order on numbers and ignores build and release. |
| CephVersion.StringTellsNumber | e2e/ceph.go:44-53 | The printed text determines the number, whatever build and release follow it. |
| CephVersion.AcceptedIff | e2e/ceph.go:57-88 | What a text must look like to be accepted. |
| CephVersion.RefusedUntouched | e2e/ceph.go:60-74 | A text without the words or the three parts of a version leaves the receiver as it was. |
| CephVersion.RefusedKeepsRelease | e2e/ceph.go:84-98 | A refused text never changes build or release. |
| CephVersion.LeftoverIs | e2e/ceph.go:75-88 | What a number that is refused leaves in its field. |
| CephVersion.TrimQuotesIs | e2e/ceph.go:60-60 | The quotes at both ends go, and nothing else. |
| CephVersion.DocumentedExample | e2e/ceph.go:55-56 | The version in the source's example, field by field. |
| CephVersion.PrintedExample | e2e/ceph.go:44-53 | How that version is printed, with and without a build. |
| Metrics.ParseVolumeStats | e2e/pvc.go:516-548 | The loop computes the fold over the lines that the lemmas speak of. |
| Metrics.ReportConcat | e2e/pvc.go:516-548 | The result for two reports is the first result overridden by the second. |
| Metrics.MetricIff | e2e/pvc.go:516-548 | A metric has a value exactly if the last line of the PVC that gives it one gives it this value; lines of other PVCs or namespaces do not count. |
| Metrics.NameIs | e2e/pvc.go:534-537 | The name is what comes before the labels. |
| Metrics.KeysAreNames | e2e/pvc.go:534-544 | Every key begins with the statistics prefix and has no brace. |
| ClusterConfig.BuildClusters | e2e/configmap.go:122-152 | For every iteration order: one entry per cluster ID, with the monitors and that cluster's own subvolumeGroup and radosNamespace, or empty ones. |
| ClusterConfig.FillCluster | e2e/configmap.go:134-152 | Filling in one cluster changes no other entry. |
| StorageClasses.Override | e2e/rbd_helper.go:170-176 | For every iteration order: the defaults overridden by the parameters, without the keys given empty values. |
| StorageClasses.RbdParameters | e2e/rbd_helper.go:145-176 | The same for the whole RBD storage class. |
| StorageClasses.RbdDefaultsAre | e2e/rbd_helper.go:145-169 | The defaults, key by key: which secret goes with which role, the cluster and the pool. |
| StorageClasses.SetGateway | e2e/nvmeof-deploy.go:174-208 | After the merge exactly one of listeners and networkMask is left, skipSubsystemNQN is not, and other keys keep their values. |
| StorageClasses.NvmeofParameters | e2e/nvmeof-deploy.go:151-208 | The whole merge ends that way, and otherwise key by key as merged. |
| StorageClasses.NvmeofDefaultsAre | e2e/nvmeof-deploy.go:151-164 | The defaults, key by key. |
| Deployments.Deployment.UpdateContainer | e2e/deployment.go:425-443 | The inner loop edits one container as specified and no other. |
| Deployments.Deployment.UpdateArgs | e2e/deployment.go:388-490 | Success restores the replica count and edits exactly the listed containers; in every other case the count is the old one or zero and the containers are all edited or all untouched. |
| Deployments.UpdatedHasFlag | e2e/deployment.go:425-443 | The flag is there afterwards with at most one more argument, the others unchanged. |
| Deployments.UpdatedIs | e2e/deployment.go:425-443 | The first argument equal to the key becomes --key=value; without one that is added at the end. |
| Deployments.OldFlagSurvives | e2e/deployment.go:428-436 | A flag set by an earlier update is never replaced. |
| Deployments.NeverIdempotent | e2e/deployment.go:425-443 | Repeating an update always changes the arguments again. |
| GoStrings.SplitJoin | e2e/errors.go:124-124 | Splitting what was joined gives the parts back, for parts without the separator. |
| GoStrings.SplitConcat | e2e/pvc.go:521-521 | The lines of two texts joined by the separator are the lines of the one and then of the other. |
| GoStrings.JoinSplit | e2e/errors.go:124-124 | Joining what was split gives the text back. |
| GoStrings.SplitNCut | e2e/ceph.go:57-99 | SplitN cuts at the first separator and leaves the rest whole. |
| GoStrings.FieldsJoin | e2e/rbd_helper.go:2299-2299 | The fields of words joined by a space are the words. |
| GoStrings.TrimSpaceIs | e2e/rbd_helper.go:2285-2285 | White space at both ends goes, and nothing else. |
| GoStrings.ContainsIff | e2e/errors.go:131-135 | A text contains another exactly if it is that one with something before and after. |
| Numerals.ParseRender | e2e/rbd_helper.go:2221-2226 | Reading a rendered number in its base gives the number. |
| Numerals.ParseIntIff | internal/rbd/cgroup_qos.go:306-311 | A number is a run of digits after at most one sign, if it fits in 64 bits. |
| Numerals.Examples | e2e/rbd_helper.go:2221-2231 | Some numbers in both bases. |
| Numerals.DecimalInjective | e2e/rbd_helper.go:2231-2231 | Different numbers have different decimal texts. |

## Left out

- Ginkgo specifications, Kubernetes and Ceph calls, logging, timing, YAML templates: scenarios and I/O.
- The lease-holder check in `e2e/operator.go`, the in-tree volume ID in `e2e/migration.go` and
  `validateVolumeStatsMetrics`: they would only add easy members.
- `isRetryableAPIError`: which errors are transient is part of an outcome.
- Polling: deadlines are not modelled; the samples a loop can take before its deadline are a parameter.
- PodChurn: names of objects are values, so their text is not modelled; deployment timeouts are outcomes.
- RefTracker: objects of a format version other than 1, stored bytes that cannot be parsed, and an empty
  tracker name are left out; requests have fewer than 2^32 keys.
- Journal: KMS, encryption, owner and source-name checks, a UUID given by the caller, the retry on a
  generated UUID that is taken, and a pool that has disappeared are left out.
- GroupLock: fairness is not stated, since the lock does not promise it.
- IoMax: the kernel's rewriting of values written to `io.max` (leading zeros, a plus sign) is not
  modelled, nor how the cgroup and the device path are found.
- VolumeId: a character stands for a byte, and fields assigned before an error are not modelled.
- Metrics: ParseFloat and the quoting of the two label filters are parameters; floats are reals.
- CephVersion: strings are sequences of characters, so invalid UTF-8 is not modelled.
- Deployments: the fields of a deployment other than replicas and container arguments are not modelled.
