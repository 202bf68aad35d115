# CLIO runtime: protocols, batching, routing, logs and the HDF5 chunk reader, verified

This project models the parts of the CLIO runtime in which tasks are parked, woken, batched, routed and
completed, the two logs it recovers from, the text form of its pool queries, and the library-free HDF5 reader
that reassembles chunked datasets. `dafny verify dfyconfig.toml` checks all of it.

Concurrent code is modelled as a state machine over its atomic steps (a lock section, an atomic store or load, a
queue operation); a *run* is any sequence of enabled steps, and the main theorems speak of every run. Code that
updates objects in place is a class whose methods are proved against functions on values, and loops are loops. The
integer widths of the code (32-bit counters and offsets, 64-bit clocks and positions) are written out.

| file | what it models |
|---|---|
| `ParkWake` | a worker going to sleep against producers that wake it |
| `Await`, `AwaitProgress`, `AwaitEnding` | awaiting subtasks: lanes, timer queues, event queues, futures, and how tasks end |
| `Batch`, `BatchManager` | collective batching at the neighbourhood leader |
| `Merge`, `MergeHistory` | merge batching inside a worker, and the registry of merged tasks over whole runs |
| `ParkQueues`, `ParkConservation` | parking queues, their passes, migration between workers |
| `Fanout`, `Leader` | range fan-out and neighbourhood leaders |
| `RowMajor`, `ChunkScatter`, `ChunkGeometry`, `ChunkTree`, `ChunkReadback` | reassembly of chunked datasets |
| `H5File`, `LittleEndian`, `GroupSearch`, `NameCut`, `PathText`, `ObjectHeaders` | reading the file, names, headers and paths |
| `H5Bytes`, `ChunkFormat`, `GroupFormat`, `HeaderFormat` | the file format as a writer lays it out, and that the reader takes from it what was written |
| `Dataset` | reading one dataset, from path to bytes |
| `RestartLog`, `AddressTable` | the restart log and the address-table log |
| `Decimal`, `PoolQueryText` | pool queries and unique ids as text |

## Where the code does less than it is meant to

Each of these has a lemma or a contract with the failing case, and one with the condition under which the code is right.

- Taking a task from a lane binds it to the event queue of that worker. If the event of one of its subtasks still
  waits at the worker it was bound to before, the task may sleep forever: `StrandedFromStart` is such a run from the
  empty machine, `BindingStrands` and `RerouteStrands` say that every such binding leads there. That case apart,
  everything promised about awaits holds, and the condition is exact (`RunKeepsInv`, `BindingSafeIff`).
- A subtask dropped on an error return, or stalled by a yield with delay 0, answers nobody: `FailedFromStart`,
  `LostFromStart` and `StalledFromStart` are runs from the empty machine after which a parent sleeps whatever happens.
  `ResumableIffAlive` says exactly when a sleeping parent can still be resumed.
- An aggregate that gets the number of a pending one loses members. The 32-bit counter makes this possible after it
  wraps: `RepeatedNumberLoses` is a run from the start, `RegisterConservesIffFresh` and `FreshUntilWrap` the condition.
- Merged tasks are numbered in 64 bits, but the registry key keeps 32 of them. If merged task number n is still under
  way when number n + 2^32 is emitted, completing it ends the parents of the other and nothing ends its own
  (`CollidingRun`, `EmitSafeIff`).
- A policy that emits parents with a null merged task loses them (`NullPolicyLoses`, `NoneLostIff`).
- The width of a fan-out exceeds the neighbourhood when it is 1 or when a 32-bit sum wraps (`TooWide`,
  `WidthBoundIff`); a configured neighbourhood of 0 is divided by (`ResolveRange` says exactly when).
- A window of node numbers that reaches past 2^64 has no leader (`LastWindowDisagrees`, `CandidatesAreTheAlive`,
  `AgreementIff`), and a leader at 2^32 or above is forwarded to a truncated address (`TruncatedLeader`,
  `ParksAfterOneHopIff`).
- A chunk offset that wraps in 64 bits lands on rows it does not belong to (`WrappedOffsetLandsOnRowZero`,
  `CoversBoxIffWellPlaced`).
- The two bounds checks of the chunk copy add and multiply in 64 bits. For a dataset whose size wraps they pass for a
  row far outside the buffer (`OverrunInput`). `InBuffersIff` and `OverrunIff` say exactly when; with sizes below 2^64
  it never happens (`CountableChecks`, `Scatter`).
- An object path is cut at 511 bytes, which keeps its meaning if and only if only slashes are cut off
  (`CutPathsClash`, `KeptIff`). Names in a group are cut at 255 bytes; a name is looked up rightly in every group if
  and only if it is shorter (`ShortNamesIff`, and `CutSearchIff` for a given group).
- The documentation of the restart log promises one add per live path after compaction. A path added, removed and
  added again is listed twice, and one compaction keeps it twice (`ListedTwice`, `MinimalAfterOneIff`).
- A record appended to a log with a torn tail does not add its entry cleanly (`AppendAfterTear`, `AppendIffClean`);
  the same goes for the address-table log (`Misread`, `AppendsIffAligned`). Compacting does not repair a torn log
  that is already minimal (`MinimalStaysTorn`).
- The restart log asks its streams for errors before their buffers are flushed. An append may report success without
  its record (`AppendEntry`), and a compaction may put a file cut short in the place of the log and report success:
  live paths are lost (`CompactionLoses`). The log then reads as the first records of the compacted one, and as all of
  it if and only if every byte arrived (`CutCompaction`, `Compact`); `SurvivesIffListed` says which paths are left.

## Model

| member | source | states |
|---|---|---|
| `ParkWake.NeverLost` | context-runtime/src/worker.cc:1098-1121 | In every interleaving of any number of producers, a worker waiting with no signal pending and work in its lane, event queue or shard has a producer that pushed and has not yet decided about its signal |
| `ParkWake.SafeIffPublishFirst` | context-runtime/src/worker.cc:1100-1113 | Publishing "parked" before the last look at the queues is exactly what rules out lost wake-ups: with the opposite order some interleaving loses one |
| `ParkWake.CheckFirstLoses` | context-runtime/src/worker.cc:1100-1113 | The losing interleaving |
| `ParkWake.RunKeepsInv` | context-runtime/src/worker.cc:1098-1121 | Every run keeps the handshake invariant between flags, queues and producers |
| `ParkWake.UndecidedSignals` | context-runtime/src/ipc_manager.cc:789-834 | A producer that has pushed against a waiting worker leaves a signal pending within three of its own steps |
| `Await.StepKeepsInv` | context-runtime/src/worker.cc:1612-1694 | Each of the fourteen steps of lanes, timers, awaits, yields, completions and events keeps the invariant of tasks, queues and workers |
| `Await.RunKeepsInv` | context-runtime/src/worker.cc:1612-1694 | So does every run in which a task is bound to another worker only when no event for it is queued |
| `Await.LeavesOnlyWhenComplete` | context-runtime/src/worker.cc:1655-1692 | Over every such run a parent that left an await has its awaited future complete |
| `Await.OnlyItsEventWakes` | context-runtime/src/worker.cc:1655-1680 | No step but the event of the awaited subtask changes a suspended parent |
| `Await.ItsEventWakes` | context-runtime/src/worker.cc:1634-1692 | That event completes the future, clears the awaited mark and executes the parent on the worker it is bound to |
| `Await.ParentIsStill` | context-runtime/src/worker.cc:1634-1680 | When an event is handled its parent is not executing: it waits for exactly this subtask or is not waiting for it at all |
| `Await.ResumedOncePerSuspension` | context-runtime/src/worker.cc:1269-1288 | Over every run suspensions and wake-ups of a parent differ by one exactly while it sleeps |
| `Await.OnePlace` | context-runtime/src/worker.cc:1269-1288 | After every run a task is in at most one queue or on at most one worker, once; a suspended one is in none |
| `Await.ParkedNeverWoken` | context-runtime/src/worker.cc:1665-1680 | An event never touches a task that sits in a timer queue |
| `Await.CheckKeeps` | context-runtime/include/clio_runtime/task.h:1936-1937 | An await that finds its future incomplete has an awaitable subtask |
| `Await.RecordKeeps` | context-runtime/include/clio_runtime/task.h:1942-1951 | Recording the awaited future keeps the invariant, in the middle of other workers' steps |
| `Await.SuspendKeeps` | context-runtime/include/clio_runtime/task.h:1352-1381 | So does suspending on it |
| `Await.LaneTakenKeeps` | context-runtime/src/worker.cc:580-598 | So does taking a task from a lane, which binds it to the worker's event queue |
| `Await.LaneFailedKeeps` | context-runtime/src/worker.cc:553-560 | So does failing one for want of a container |
| `Await.EndingKeeps` | context-runtime/src/worker.cc:1305-1474 | So does ending the running task; `AwaitEnding.EndsAs` says what becomes of it |
| `AwaitEnding.EndsAs` | context-runtime/src/worker.cc:1305-1474 | What ending the running task does, and that it does nothing else: a periodic one is in the timer queue of its worker once, not started, with no event; a fire-and-forget one has ended with no event and its future incomplete; one without a parent is complete; any other has queued its one event where the parent is bound |
| `AwaitEnding.FailsAs` | context-runtime/src/worker.cc:553-560 | A task for which the lane finds no container is flagged complete, is queued nowhere and queues no event |
| `AwaitEnding.PeriodicNeverGone` | context-runtime/src/worker.cc:1403-1406 | In every careful run that drops and stalls nothing a periodic task is never gone |
| `AwaitEnding.PeriodicRunsAgain` | context-runtime/src/worker.cc:1870-1922 | From wherever such a run has led, some run executes that periodic task once more |
| `AwaitProgress.StrandedForever` | context-runtime/src/worker.cc:1305-1312 | A parent whose chain of awaits ends in a dropped or stalled task is never resumed |
| `AwaitProgress.FailedFromStart` | context-runtime/src/worker.cc:553-560 | A run from the empty machine in which a subtask fails for want of a container, after which no run, careful or not, ever resumes its parent |
| `AwaitProgress.LostFromStart` | context-runtime/src/worker.cc:1305-1312 | The same for a subtask that finishes and finds no container |
| `AwaitProgress.StalledFromStart` | context-runtime/src/worker.cc:1269-1288 | The same for a subtask that yields with delay 0 |
| `AwaitProgress.ResumableIffAlive` | context-runtime/src/worker.cc:1612-1694 | A sleeping parent can still be resumed if and only if its chain of awaits ends in a task that is queued or running: the protocol does not deadlock |
| `AwaitProgress.Drive` | context-runtime/src/worker.cc:1612-1694 | A subtask with a live chain of awaits can be brought to completion without disturbing an older sleeper |
| `Await.BindingSafeIff` | context-runtime/src/worker.cc:586-590 | Binding a task taken from a lane keeps the invariant if and only if it stays with its worker or no event for it is queued |
| `AwaitProgress.BindingStrands` | context-runtime/src/worker.cc:586-590 | In every other case some run leads to a parent sleeping on a complete future whose event is gone, and no run, careful or not, changes that parent again |
| `AwaitProgress.RerouteStrands` | context-runtime/src/worker.cc:1591-1605 | A due task with a subtask that can still answer reaches that case by being handed to another worker, and may then sleep forever |
| `AwaitProgress.StrandedFromStart` | context-runtime/src/worker.cc:586-590 | A run from the empty machine after which a parent sleeps forever on a complete future whose event is gone |
| `Batch.Conserved` | context-runtime/src/batch_manager.cc:35-236 | Over every interleaving of adding, claiming, building, failing and completing, each added task is in exactly one of a parked group, a claimed group, a pending entry, the completed or the dropped list |
| `Batch.CompletedOnce` | context-runtime/src/batch_manager.cc:190-235 | No task is completed twice, nor completed and dropped |
| `Batch.PerKeyExclusion` | context-runtime/src/batch_manager.cc:86-96 | In every run a key is in flight exactly while the flushing worker or one aggregate holds it, never two of them |
| `Batch.BuildingResolves` | context-runtime/src/batch_manager.cc:113-169 | Building a claimed group ends with the claim released or with the registered aggregate owning it and its members |
| `Batch.ClaimsExactlyTheDue` | context-runtime/src/batch_manager.cc:55-104 | In every run a pass claims exactly the groups with a free key and an open gate: as many members as containers, or a first arrival at least the window ago, in 64-bit arithmetic; a claimed group is not empty, so the early return of building is unreachable, and is in order of arrival |
| `Batch.RegisterConservesIffFresh` | context-runtime/src/batch_manager.cc:150-162 | Registering an aggregate loses no member if and only if its number is not in use |
| `Batch.RepeatedNumberLoses` | context-runtime/src/batch_manager.cc:150-162 | For any two single-member groups of different keys, a run from the start in which the counter comes round to the number of a pending aggregate, and registering the second loses the first |
| `Batch.FreshUntilWrap` | context-runtime/src/worker.cc:313-318 | With one flushing worker its counter gives unused numbers until it has wrapped |
| `BatchManagers.BatchManager.Add` | context-runtime/src/batch_manager.cc:35-53 | Parks a task at the end of its group; only the first arrival sets the gate |
| `BatchManagers.BatchManager.ClaimDue` | context-runtime/src/batch_manager.cc:59-104 | The locked scan moves exactly the due groups out of the map, whatever its order, and claims their keys |
| `BatchManagers.BatchManager.BuildAndSubmit` | context-runtime/src/batch_manager.cc:113-169 | The aggregate is the copy of the first member with every later one folded in once, in order, for every fold; it is registered under the next number, or the claim is released; either way the call is a run of the machine of `Batch` |
| `BatchManagers.BatchManager.FlushDue` | context-runtime/src/batch_manager.cc:55-111 | A pass builds each due group once and reports work exactly if a group was parked; a due key is then in flight if and only if both look-ups succeeded, every other as before; the pass is a run of the machine, so the theorems of `Batch` hold of it |
| `BatchManagers.BuildRefines` | context-runtime/src/batch_manager.cc:113-169 | From every machine state in which a group is claimed, building it is abandoning it, or registering and submitting its aggregate |
| `BatchManagers.PassRefines` | context-runtime/src/batch_manager.cc:55-111 | From every machine state between passes, a pass is claiming what is due and then building each claimed group, in whatever order; it leaves nothing claimed and unbuilt |
| `BatchManagers.FoldedCollects` | context-runtime/src/batch_manager.cc:138-143 | Folding meets every member once, in order: appending as the fold gives the list of them |
| `BatchManagers.BatchManager.OnAggregateComplete` | context-runtime/src/batch_manager.cc:175-236 | Releases the claim, takes the members and hands exactly them to completion |
| `Merge.EachPoppedOnce` | context-runtime/src/worker.cc:688-828 | For every policy that accounts for each parked task once, every popped task is the subject of exactly one outcome: failed, routed, executed, or parent of one merged task; no started task is merged |
| `Merge.NoneLostIff` | context-runtime/src/worker.cc:639-643 | None of the popped tasks is lost if and only if the policy, asked pool by pool about the groups it parked, emits no parents under a null merged task |
| `Merge.AlwaysAnswers` | context-runtime/src/worker.cc:639-643 | A policy that never does so loses nothing on any lane |
| `Merge.NullPolicyLoses` | context-runtime/src/worker.cc:639-643 | A policy that always does accounts for every task and yet loses any task that has not started |
| `Merge.CollectedOk` | context-runtime/src/worker.cc:732-752 | Only tasks that have not started are parked for merging, stamped in order of arrival, in groups of different pools or tags |
| `Merge.CollectedAll` | context-runtime/src/worker.cc:700-753 | While draining, every popped task is logged, waiting or parked, once |
| `Merge.ExecutedInOrder` | context-runtime/src/worker.cc:755-760 | The tasks left waiting execute one after the other behind what was logged before; `Merge.BatchedArranged` ties them to the lane |
| `Merge.BatchedArranged` | context-runtime/src/worker.cc:688-828 | For every lane and policy the log of a drain is: what failed or was sent away, in order of arrival; then the started and the declined tasks, in order of arrival; then what the sink does. Each arrival has its place by counting the ones before it |
| `Merge.DeclinedRunFirst` | context-runtime/src/worker.cc:755-760 | So of two tasks that run as they are the earlier runs first, after everything that fails or is sent away and before every merged task |
| `Merge.ParkFiles` | context-runtime/src/worker.cc:740-752 | Parking puts a task at the end of the one group with its pool and tag and leaves the others alone |
| `Merge.ServedInOrder` | context-runtime/src/worker.cc:630-672 | The sink serves the calls of a policy in order and numbers the merged tasks in order |
| `Merge.Collect` | context-runtime/src/worker.cc:700-753 | The drain loop pops up to its budget and files each task as specified |
| `Merge.DistinctPools` | context-runtime/src/worker.cc:798-805 | The pools of the groups in order of first appearance: no pool twice, and exactly those that have a group |
| `Merge.BatchCollect` | context-runtime/src/worker.cc:688-828 | The whole drain equals its specification for any policy, conserves the popped tasks for a proper one, and its log is arranged by arrival |
| `Merge.PendingRegistry.Emit` | context-runtime/src/worker.cc:639-672 | Parents are registered under the low 32 bits of the next 64-bit number before the merged task executes; a null merged task registers nothing |
| `Merge.PendingRegistry.Complete` | context-runtime/src/worker.cc:830-859 | Completing a merged task takes the entry of its 32-bit key and ends each parent in it with its return code, completer and container |
| `MergeHistory.ParentsEndOnce` | context-runtime/src/worker.cc:611-620 | Over every interleaving of all workers in which no key is given out while another merged task under way holds it, each parent of a completed merged task has been ended once, with the status of that task, and nobody else has |
| `MergeHistory.EmitSafeIff` | context-runtime/src/worker.cc:650-672 | After emitting, every merged task under way would end exactly its own parents if and only if none of them holds the new key |
| `MergeHistory.CollidingRun` | context-runtime/src/worker.cc:650-672 | A run from the start in which merged task 2^32 takes the key of the first: completing the first ends the parent of the other, and nothing is left to end its own |
| `MergeHistory.ParentsEndOnceUntilWrap` | context-runtime/src/worker.cc:611-620 | The first 2^32 steps of a process are right in any order |
| `MergeHistory.DrainsMergeDistinct` | context-runtime/src/worker.cc:688-828 | Merged tasks emitted by drains of distinct tasks have distinct parents, for every proper policy and order of emission |
| `MergeHistory.NoTaskEndsTwice` | context-runtime/src/worker.cc:830-859 | In such runs no task popped by drains of distinct tasks is ended twice |
| `ParkQueues.Worker.AddToBlockedQueue` | context-runtime/src/worker.cc:1759-1830 | Parks in the band selected by yield count or yield time, restarting a stale clock |
| `ParkQueues.Worker.ProcessBlockedQueue` | context-runtime/src/worker.cc:1476-1538 | One pass takes up to eight tasks from the front and executes those whose coroutine has not completed; whatever they park, in any band, goes behind what was there |
| `ParkQueues.Worker.ProcessPeriodicQueue` | context-runtime/src/worker.cc:1540-1610 | One pass takes up to eight tasks from the front; those due are routed again, and executed in order if they stay here, handed over or put on the retry queue otherwise; those not due go to the back |
| `ParkQueues.Worker.MigrateParkedTo` | context-runtime/src/worker.cc:387-428 | Empties the donor and appends each of its queues, in order, behind the one of the destination; the count is the number moved |
| `ParkQueues.ExaminedInTime` | context-runtime/src/worker.cc:1540-1610 | Without migration the task at position p of a periodic queue is examined in pass ceil((p+1)/8), and not earlier, whatever is added meanwhile |
| `ParkQueues.DueWindow` | context-runtime/src/worker.cc:1798-1808 | A parked periodic task is due once its yield time has passed less 2 ms, and not due 12 ms before |
| `ParkQueues.BandLimits` | context-runtime/src/worker.cc:1778-1793 | A task is beyond a band exactly if its yield count or yield time exceeds the limit of that band |
| `ParkQueues.BandsOrdered` | context-runtime/src/worker.cc:1778-1825 | More yields or a longer yield time never select a lower band |
| `ParkQueues.RunStartsOver` | context-runtime/src/worker.cc:1522-1527 | A task that is run from a blocked queue starts again in the first band and moves on with its third, fifth and ninth yield |
| `ParkQueues.PassKeeps` | context-runtime/src/worker.cc:1540-1610 | A pass keeps every examined task it neither runs nor hands away: at the back of its band if not due, on the retry queue if routing is postponed |
| `ParkQueues.MigratedDue` | context-runtime/src/worker.cc:405-419 | A migrated periodic task waits its whole yield time again, up to the tolerance of 2 ms |
| `ParkConservation.ParkedConserved` | context-runtime/src/worker.cc:387-428 | Over every interleaving of parking, popping, putting back and migrating, each task is at exactly one place and each parked one in the band it selects |
| `ParkConservation.NeverTwoPlaces` | context-runtime/src/worker.cc:1540-1610 | Starting from empty queues, two places never hold the same task |
| `Fanout.ResolveRange` | context-runtime/src/ipc_manager.cc:4566-4633 | An empty range gives nothing, a single container a local or direct query, any other range the sub-ranges of which the rows below speak; it fails if and only if such a range meets a neighbourhood of 0 |
| `Fanout.ResolveBroadcast` | context-runtime/src/ipc_manager.cc:4635-4651 | A broadcast is the range of all containers of its pool, cut as that range is, and stays as it is without a pool; it fails if and only if it has two containers or more and the neighbourhood is 0 |
| `Fanout.SplitCovers` | context-runtime/src/ipc_manager.cc:4604-4627 | For every offset, count and neighbourhood size, wrapping sums included, the sub-ranges cover the range exactly, in order |
| `Fanout.LeavesExact` | context-runtime/src/ipc_manager.cc:4566-4633 | Repeated resolution ends and reaches each container of the range exactly once |
| `Fanout.BroadcastExactlyOnce` | context-runtime/src/ipc_manager.cc:4635-4651 | The leaves of a broadcast are the containers 0 to n - 1, each once |
| `Fanout.LeavesDistinct` | context-runtime/src/ipc_manager.cc:4612-4627 | No container is reached twice, even if ids wrap |
| `Fanout.WidthBoundIff` | context-runtime/src/ipc_manager.cc:4604-4611 | A resolution has at most N sub-ranges if and only if the range has at most N containers, or N is at least 2 and the sum does not wrap; otherwise it is cut into single containers |
| `Fanout.TooWide` | context-runtime/src/ipc_manager.cc:4604-4611 | Three containers with a neighbourhood of 1, and 2^32 - 1 containers with a neighbourhood of 2, are cut into single containers |
| `Fanout.WidthExact` | context-runtime/src/ipc_manager.cc:4607-4613 | For a neighbourhood N of at least 2 and sums that do not wrap: up to N containers give one sub-range each, more than N^2 give N sub-ranges, and otherwise no sub-range exceeds N and no division with that property has fewer |
| `Fanout.Balanced` | context-runtime/src/ipc_manager.cc:4613-4621 | Sizes of sub-ranges differ by at most one, and the larger ones come first |
| `Fanout.RoundsExact` | context-runtime/src/ipc_manager.cc:4604-4630 | For N at least 2 a range comes down to single containers within k rounds if and only if it has at most N^k containers |
| `Fanout.OneRound` | context-runtime/src/ipc_manager.cc:4604-4611 | In the exceptional cases one round suffices |
| `Leader.FindLeader` | context-runtime/src/ipc_manager.cc:1838-1858 | The lowest alive node of the window of the configured size (1 for 0) that holds the node, or the node itself |
| `Leader.CandidatesAreTheAlive` | context-runtime/src/ipc_manager.cc:1848-1855 | The candidates are the alive nodes of the window, unless its end wraps: then there are none |
| `Leader.LeadersAgree` | context-runtime/src/ipc_manager.cc:1838-1858 | All nodes of a window with a candidate get the same leader |
| `Leader.LeaderIdempotent` | context-runtime/src/ipc_manager.cc:1838-1858 | The leader of a leader is itself |
| `Leader.AgreementIff` | context-runtime/src/ipc_manager.cc:1838-1858 | The nodes of a window agree if and only if it has a candidate or is a single node |
| `Leader.LastWindowDisagrees` | context-runtime/src/ipc_manager.cc:1838-1858 | The two highest nodes form a window, both are alive, and each takes itself for the leader |
| `Leader.RouteManyToOne` | context-runtime/src/ipc_manager.cc:4167-4203 | Parks at that leader, else forwards to the leader's 32-bit address |
| `Leader.ParksAfterOneHopIff` | context-runtime/src/ipc_manager.cc:4167-4203 | A forwarded collective task is parked at its leader after one hop if and only if the leader's number is below 2^32 |
| `Leader.TruncatedLeader` | context-runtime/src/ipc_manager.cc:4167-4203 | Node 2^32 leads node 2^32 + 1, whose task is sent to node 0 and parked there |
| `Leader.OneParkingPlace` | context-runtime/src/ipc_manager.cc:4167-4203 | Two members of a window meet at the same node, unless one is the leader and its number is truncated |
| `ChunkScatter.Scatter` | benchmarks/hdf5-ingest/hdf5_c_libfree_reader.c:394-453 | For every header the outcome is that of the first row that is not simply copied or skipped. With sizes below 2^64 it never leaves a buffer, succeeds exactly if everything the chunk supplies fits both buffers, and then every output byte is the specified one |
| `ChunkScatter.PlaceRow` | benchmarks/hdf5-ingest/hdf5_c_libfree_reader.c:449-452 | A row that lands is rejected, copied, or leaves a buffer, as its wrapped checks and true positions say |
| `ChunkScatter.InBuffersIff` | benchmarks/hdf5-ingest/hdf5_c_libfree_reader.c:449-452 | For every header a copy stays inside both buffers if and only if it passes the checks and neither of their sums wraps |
| `ChunkScatter.OverrunIff` | benchmarks/hdf5-ingest/hdf5_c_libfree_reader.c:424-452 | A scatter leaves a buffer if and only if some row lands and passes its checks by wrapping, and every earlier row misses the dataset or passes them without |
| `ChunkScatter.CountableChecks` | benchmarks/hdf5-ingest/hdf5_c_libfree_reader.c:449-452 | With sizes below 2^64 the checks are exact |
| `ChunkScatter.OverrunInput` | benchmarks/hdf5-ingest/hdf5_c_libfree_reader.c:424-452 | Two dims of 2^64 - 1, chunks of 1 by 16 bytes and offset (16, 0): the dataset size wraps to one byte, the checks pass, and the copy leaves that byte |
| `ChunkGeometry.CoversBoxIffWellPlaced` | benchmarks/hdf5-ingest/hdf5_c_libfree_reader.c:415-433 | A chunk supplies exactly the intersection of its box with the dataset if and only if its offset does not wrap, or misses the dataset anyway |
| `ChunkGeometry.WrappedOffsetLandsOnRowZero` | benchmarks/hdf5-ingest/hdf5_c_libfree_reader.c:415-433 | An offset at the top of 64 bits lands on row 0 |
| `ChunkGeometry.WellSizedFits` | benchmarks/hdf5-ingest/hdf5_c_libfree_reader.c:436-448 | With sizes equal to the products times the element size the scatter never fails |
| `ChunkGeometry.ScatteredPointwise` | benchmarks/hdf5-ingest/hdf5_c_libfree_reader.c:394-453 | For every rank: after a scatter the element at index m is the chunk element at m minus the offset if m is in the box, and unchanged otherwise |
| `ChunkTree.WalkTree` | benchmarks/hdf5-ingest/hdf5_c_libfree_reader.c:382-457 | Walking the chunk index ends on any bytes. For every header the outcome is that of the chunks it lists within the depth limit; with sizes below 2^64 they are scattered in order. `ChunkFormat.IndexRead` says which chunks a written index lists |
| `ChunkTree.ReadChunked` | benchmarks/hdf5-ingest/hdf5_c_libfree_reader.c:382-457 | With sizes below 2^64 reading a dataset never leaves a buffer and succeeds exactly if its index and chunks can be read and fit, and the output is then all chunks in order; for other headers the outcome is that of the listed chunks (`ChunkFormat.IndexRead` for a written index) |
| `ChunkTree.LastChunkWins` | benchmarks/hdf5-ingest/hdf5_c_libfree_reader.c:394-453 | Each output byte comes from the last chunk that supplies it, or is untouched |
| `ChunkFormat.IndexRead` | benchmarks/hdf5-ingest/hdf5_c_libfree_reader.c:382-424 | Whatever chunk index a file holds, laid out as a writer does and no deeper than the limit, the walk lists its chunks: all of them, in order, with their offsets and bytes |
| `ChunkReadback.GridTiles` | benchmarks/hdf5-ingest/hdf5_c_libfree_reader.c:382-457 | The regular grid of chunks covers every index of the dataset |
| `ChunkReadback.ReadsBack` | benchmarks/hdf5-ingest/hdf5_c_libfree_reader.c:382-457 | A dataset stored as chunks that tile it is read back byte for byte, in whatever order the index lists them |
| `Dataset.OneDataset` | benchmarks/hdf5-ingest/hdf5_c_libfree_reader.c:464-519 | For a file that holds, as a writer lays them out, the groups of a path, the header of its object and a chunk index with chunks tiling the dataset, reading the path gives the data byte for byte; soft links are passed over, other unresolved paths fail |
| `Dataset.ReadDataset` | benchmarks/hdf5-ingest/hdf5_c_libfree_reader.c:483-559 | For every header: what is passed over, what fails, and the bytes otherwise, chunked, contiguous or compact; the data of a written chunk index that tiles the dataset, byte for byte |
| `Dataset.ReadBlocks` | benchmarks/hdf5-ingest/hdf5_c_libfree_reader.c:540-556 | Reading in blocks of 8192 bytes gives the whole piece of the file, or fails exactly if part of it is missing |
| `Dataset.AllApplyOk` | benchmarks/hdf5-ingest/hdf5_c_libfree_reader.c:141-243 | A header read from any bytes has 64-bit dims and 32-bit chunk dims and sizes |
| `Dataset.UnstoredIsZero` | benchmarks/hdf5-ingest/hdf5_c_libfree_reader.c:511-513 | A byte of a chunked dataset that no chunk supplies is zero |
| `LittleEndian.Decode` | benchmarks/hdf5-ingest/hdf5_c_libfree_reader.c:78-82 | The shift-and-or loop computes the little-endian value |
| `LittleEndian.ValueEncode` | context-runtime/src/restart_log.cc:66-70 | Decoding undoes encoding for every value that fits the width |
| `GroupSearch.TreeFind` | benchmarks/hdf5-ingest/hdf5_c_libfree_reader.c:323-346 | The B-tree search ends on any bytes, cycles included, and equals linear search of the left-to-right listing |
| `GroupSearch.SymbolFind` | benchmarks/hdf5-ingest/hdf5_c_libfree_reader.c:296-320 | So does the search of one leaf |
| `GroupSearch.ReadHeapName` | benchmarks/hdf5-ingest/hdf5_c_libfree_reader.c:272-294 | Reads the name at a heap offset, cut at the name limit |
| `NameCut.NameIsCut` | benchmarks/hdf5-ingest/hdf5_c_libfree_reader.c:281-288 | What is read of a terminated name is its first 255 bytes |
| `NameCut.CutSearchIff` | benchmarks/hdf5-ingest/hdf5_c_libfree_reader.c:281-320 | For every listing the search of the cut names stops where that of the whole names does if and only if no entry up to there has a longer name that is looked for, or whose first 255 bytes are |
| `NameCut.ShortNamesIff` | benchmarks/hdf5-ingest/hdf5_c_libfree_reader.c:281-320 | A name is looked up rightly in every listing if and only if it is shorter than 255 bytes |
| `GroupSearch.FirstHitExact` | benchmarks/hdf5-ingest/hdf5_c_libfree_reader.c:296-346 | With no read error the search returns the first entry of that name, and none exactly if there is none |
| `GroupSearch.FailsIff` | benchmarks/hdf5-ingest/hdf5_c_libfree_reader.c:296-346 | It fails exactly if an unreadable place precedes every match |
| `GroupFormat.GroupRead` | benchmarks/hdf5-ingest/hdf5_c_libfree_reader.c:323-346 | Whatever group a file holds, laid out as a writer does and no deeper than the limit, the listing is its entries: all of them, in order |
| `GroupFormat.SymbolsRead` | benchmarks/hdf5-ingest/hdf5_c_libfree_reader.c:296-320 | The same for one symbol node: names, header addresses and cache types |
| `GroupFormat.NameRead` | benchmarks/hdf5-ingest/hdf5_c_libfree_reader.c:272-291 | A name written in a local heap is read as written, up to the name limit |
| `ObjectHeaders.WalkBlock` | benchmarks/hdf5-ingest/hdf5_c_libfree_reader.c:246-258 | The header walk ends on any bytes, continuation cycles included, and applies the flattened messages in order |
| `ObjectHeaders.Message` | benchmarks/hdf5-ingest/hdf5_c_libfree_reader.c:141-243 | One message: applied to the header, or its continuation walked within the nesting limit |
| `ObjectHeaders.ReadHeader` | benchmarks/hdf5-ingest/hdf5_c_libfree_reader.c:260-268 | A header is its messages applied to an empty one |
| `ObjectHeaders.LastMessageDecides` | benchmarks/hdf5-ingest/hdf5_c_libfree_reader.c:141-243 | Where a kind of message repeats the last one decides, continuation blocks included; the two flags are set by any message of their kind |
| `HeaderFormat.NoteRead` | benchmarks/hdf5-ingest/hdf5_c_libfree_reader.c:141-243 | Each kind of message (dataspace, datatype, layout, filter, symbol table and others), written by its format, changes the header by exactly what was written |
| `HeaderFormat.BlockRead` | benchmarks/hdf5-ingest/hdf5_c_libfree_reader.c:246-258 | The messages of a block are those written in it and in its continuations, in order |
| `HeaderFormat.HeaderRead` | benchmarks/hdf5-ingest/hdf5_c_libfree_reader.c:260-268 | Whatever header a file holds, reading it gives what its messages say |
| `ObjectHeaders.Resolve` | benchmarks/hdf5-ingest/hdf5_c_libfree_reader.c:349-368 | Resolves the components of the first 511 bytes of a path one after the other, with each way it can fail; the whole path if only slashes are past them |
| `ObjectHeaders.FollowJoin` | benchmarks/hdf5-ingest/hdf5_c_libfree_reader.c:349-368 | Resolving a joined path is resolving its parts one after the other |
| `ObjectHeaders.JoinedPath` | benchmarks/hdf5-ingest/hdf5_c_libfree_reader.c:349-368 | Resolving p/q is resolving p, and q from there |
| `PathText.NextToken` | benchmarks/hdf5-ingest/hdf5_c_libfree_reader.c:354-355 | The scan takes the components of a path from the left, one at a time |
| `PathText.TokensJoin` | benchmarks/hdf5-ingest/hdf5_c_libfree_reader.c:354-355 | The components of p/q are those of p, then those of q |
| `PathText.KeptIff` | benchmarks/hdf5-ingest/hdf5_c_libfree_reader.c:350-351 | The 511 bytes that fit the buffer have the components of the whole path if and only if only slashes are past them |
| `PathText.CutPathsClash` | benchmarks/hdf5-ingest/hdf5_c_libfree_reader.c:350-351 | Two different paths of 512 bytes that are the same to the buffer |
| `PathText.JoinedIff` | benchmarks/hdf5-ingest/hdf5_c_libfree_reader.c:354-355 | A list of names can be written as a path and taken apart again if and only if none is empty or contains a slash |
| `PathText.NormalForm` | benchmarks/hdf5-ingest/hdf5_c_libfree_reader.c:354-355 | Joining the components of a path and taking them apart again changes nothing |
| `RestartLog.RoundTripIff` | context-runtime/src/restart_log.cc:56-111 | A written log reads back exactly if and only if every path is shorter than 2^32 |
| `RestartLog.TornTail` | context-runtime/src/restart_log.cc:85-111 | Any byte prefix of a log reads as exactly the records wholly contained in it |
| `RestartLog.WholeIsMost` | context-runtime/src/restart_log.cc:85-111 | That number of records is the largest that fits the prefix |
| `RestartLog.AppendClean` | context-runtime/src/restart_log.cc:56-75 | Appending to a log without a torn tail adds exactly that entry |
| `RestartLog.AppendIffClean` | context-runtime/src/restart_log.cc:56-75 | For every log and entry: an append adds exactly its entry and leaves no torn tail if and only if there was none |
| `RestartLog.AppendAfterTear` | context-runtime/src/restart_log.cc:56-75 | Behind a torn record of one byte a remove is read as an add of another path |
| `RestartLog.CutAppend` | context-runtime/src/restart_log.cc:56-75 | A part of a record behind a log that is not torn is not read, and tears it |
| `RestartLog.MinimalStaysTorn` | context-runtime/src/restart_log.cc:161-163 | A torn log that is minimal stays torn when compacted, and the next append is misread |
| `RestartLog.LiveIffLastIsAdd` | context-runtime/src/restart_log.cc:113-124 | A path is live if and only if its last operation is an add |
| `RestartLog.ListedIffLive` | context-runtime/src/restart_log.cc:113-135 | The live list contains exactly the live paths, each as often as it has become live |
| `RestartLog.ListedTwice` | context-runtime/src/restart_log.cc:118-121 | Added, removed and added again, a path is listed twice |
| `RestartLog.CompactPreservesLive` | context-runtime/src/restart_log.cc:157-199 | Compacting preserves which paths are live |
| `RestartLog.CutCompaction` | context-runtime/src/restart_log.cc:165-199 | A compacted log of which only some bytes arrived reads as its whole records, and as itself if and only if all did |
| `RestartLog.SurvivesIffListed` | context-runtime/src/restart_log.cc:165-199 | The paths then live are those listed among these records |
| `RestartLog.CompactionLoses` | context-runtime/src/restart_log.cc:165-199 | Any path, added twice, is lost if nothing of the compacted log arrives |
| `RestartLog.MinimalAfterOneIff` | context-runtime/src/restart_log.cc:157-199 | One compaction reaches the minimal log if and only if no path that is live at the end was added, removed and added again |
| `RestartLog.MinimalAfterTwo` | context-runtime/src/restart_log.cc:157-199 | Two compactions always do, and a third changes nothing |
| `RestartLog.Log.AppendEntry` | context-runtime/src/restart_log.cc:56-75 | Reports success exactly if directory and file are there and the stream says good before it is flushed. The file gains the bytes that arrive: the whole record is read as such if and only if nothing was torn; a part of one is not read, and tears the log |
| `RestartLog.Log.ReadAll` | context-runtime/src/restart_log.cc:85-111 | Reads records up to the end or the first torn one |
| `RestartLog.Log.LiveSet` | context-runtime/src/restart_log.cc:113-135 | Returns the live list of the file |
| `RestartLog.Log.IsRestartable` | context-runtime/src/restart_log.cc:137-140 | Says whether the last operation on a path is an add |
| `RestartLog.Log.IsMinimal` | context-runtime/src/restart_log.cc:144-155 | Says whether the entries are one add per listed path, in order |
| `RestartLog.Log.Compact` | context-runtime/src/restart_log.cc:157-199 | Leaves a minimal log untouched; otherwise success depends on directory, file, stream and rename alone, and the file then reads as the first records of the compacted log, all of them if and only if every byte arrived; on failure it is unchanged |
| `AddressTable.LastWriterWins` | context-runtime/src/pool_manager.cc:1031-1053 | After any updates each container of a known pool has the last node written for it, and no pool appears or vanishes |
| `AddressTable.ReadsBack` | context-runtime/src/pool_manager.cc:1084-1135 | A log of updates reads back exactly, and a torn last record is ignored |
| `AddressTable.RecordLayout` | context-runtime/src/pool_manager.cc:1084-1095 | A record is time, pool, container, old node and new node, little-endian at their places in 28 bytes |
| `AddressTable.AppendsIffAligned` | context-runtime/src/pool_manager.cc:1084-1098 | Appending adds exactly its update, whatever it is, if and only if the file holds whole records only |
| `AddressTable.Misread` | context-runtime/src/pool_manager.cc:1084-1098 | For every file that does not there is an update that is not read back |
| `AddressTable.ReplayRecovers` | context-runtime/src/pool_manager.cc:1100-1141 | Replaying the files of a node in any order over the initial table gives the table it had in memory, torn last records or not |
| `AddressTable.ReplayTwice` | context-runtime/src/pool_manager.cc:1100-1141 | A second replay changes nothing |
| `AddressTable.OrderIrrelevantIff` | context-runtime/src/pool_manager.cc:1116-1138 | The order of two log files does not matter if and only if they agree on every container both write |
| `AddressTable.PoolManager.InitAddressMap` | context-runtime/src/pool_manager.cc:594-624 | Every container starts on the node of its number |
| `AddressTable.PoolManager.GetContainerNodeId` | context-runtime/src/pool_manager.cc:993-1029 | The mapped node, or 0 |
| `AddressTable.PoolManager.UpdateContainerNodeMapping` | context-runtime/src/pool_manager.cc:1031-1053 | Changes one container of a known pool, and nothing for an unknown one |
| `AddressTable.PoolManager.WriteAddressTableWAL` | context-runtime/src/pool_manager.cc:1055-1098 | Appends one 28-byte record to the file of its pool |
| `AddressTable.PoolManager.ReplayFile` | context-runtime/src/pool_manager.cc:1119-1137 | Applies the whole records of a file in order |
| `AddressTable.PoolManager.ReplayAddressTableWAL` | context-runtime/src/pool_manager.cc:1100-1141 | Applies the files one after the other |
| `Decimal.ParsePrint` | context-runtime/src/pool_query.cc:213-237 | Parsing a printed number gives it back for all 64-bit values |
| `Decimal.ParseForm` | context-runtime/src/pool_query.cc:164-204 | A number may follow spaces and one sign, and is followed by anything that does not continue it; a minus negates modulo 2^64, more than 64 bits are out of range |
| `PoolQueryText.ParsesBack` | context-runtime/src/pool_query.cc:151-241 | For every query, whatever its fields, parsing its text gives what the factory of its mode makes of the printed fields, or fails for the two modes without text |
| `PoolQueryText.RoundTripIff` | context-runtime/src/pool_query.cc:50-241 | A query survives printing and parsing if and only if a factory made it with default timeout and parallelism |
| `PoolQueryText.ToStringInjective` | context-runtime/src/pool_query.cc:213-241 | On those queries the text determines the query |
| `PoolQueryText.CaseIgnored` | context-runtime/src/pool_query.cc:151-155 | Upper and lower case make no difference to the parser |
| `PoolQueryText.ParsesBackInAnyCase` | context-runtime/src/pool_query.cc:151-241 | So whatever is printed parses back in any case |
| `PoolQueryText.MissingFields` | context-runtime/src/pool_query.cc:182-206 | Fields missing at the end: the batch key is then 0 and the window 10000 ns |
| `PoolQueryText.NumbersCut` | context-runtime/src/pool_query.cc:163-165 | A container id is cut to 32 bits; more than 64 bits are refused |
| `PoolQueryText.PrintStable` | context-runtime/src/pool_query.cc:151-241 | Printing what was parsed from a printed query gives the same text |
| `PoolQueryText.IdRoundTrip` | context-runtime/src/types.cc:45-63 | A unique id survives printing and parsing |
| `PoolQueryText.IdInjective` | context-runtime/src/types.cc:61-63 | Different unique ids print differently |

## Left out

- Transports, shared-memory set-up, reconnecting, GPU paths and coroutine frames: only push, signal, suspend and resume steps are kept.
- The wake of the network queue (`context-runtime/src/ipc_manager.cc`, lines 2434 to 2487): gated on an earlier emptiness check, so the wake-up theorem does not extend to it.
- Load accounting, elastic worker spawning and rescue beyond `MigrateParkedTo`; event queues adopted from a rescued worker are not modelled.
- Creating and destroying pools, statistics, configuration, modules, archives and benchmarks.
- The HDF5 reader's printing, hashing and running out of memory.
- Memory reclamation and raw pointers: tasks, futures and groups are values with identities.
- I/O errors of the address-table log: its appends succeed; a write cut short is covered by `AddressTable.AppendsIffAligned`.
- Await.RunKeepsInv: runs in which a task is bound to another worker only when no event for it is queued; without that the property is false (`AwaitProgress.BindingStrands`), and `Await.BindingSafeIff` shows that the condition is exact.
- Await.EndingKeeps: network replies and client responses are the single step of completing a task without parent. Answering a parent reads the event queue it is bound to and pushes the event in one step; the code does so in two, so that a binding in between sends the event to the earlier worker, as if it had been queued there before.
- AwaitEnding.PeriodicNeverGone: every worker has a lane; the code drops a periodic task that has no lane on a worker that has none (context-runtime/src/worker.cc, lines 1890 to 1896).
- AwaitEnding.PeriodicRunsAgain: says that such a run exists, not that a scheduler takes it.
- AwaitProgress.ResumableIffAlive: says that a resuming run exists, not that a scheduler takes it.
- ParkWake.NeverLost: sequentially consistent steps, which the fences of the code justify; weaker memory orders are not modelled.
- Batch.Conserved: runs in which no new aggregate gets the number of a pending one (`Batch.RegisterConservesIffFresh` is the exact condition).
- MergeHistory.ParentsEndOnce: runs in which no merged task gets the key of one under way; without that the property is false (`MergeHistory.CollidingRun`), and `MergeHistory.EmitSafeIff` shows that the condition is exact.
- Merge.EachPoppedOnce: policies that account for each parked task once; what a policy computes in a merged task is its own.
- ParkQueues.Worker.ProcessPeriodicQueue: without a migration during the pass; `ParkConservation.ParkedConserved` covers interleaved migrations. Yield counts do not wrap, and times are reals.
- ChunkScatter.Scatter: nothing is said about the output after a copy that left a buffer.
- ChunkFormat.IndexRead, GroupFormat.GroupRead, HeaderFormat.HeaderRead: version 1 nodes, symbol tables and headers, the only ones the code reads; what the reader does with bytes that follow no such layout is said by `ChunkTree.WalkTree`, `GroupSearch.TreeFind` and `ObjectHeaders.WalkBlock`.
- RestartLog.Log.AppendEntry: what a stream reports and how many bytes arrive are parameters; the bytes that arrive are the first ones.
- AddressTable.ReplayRecovers: one log file per pool, as one node writes them; for several files of a pool `AddressTable.OrderIrrelevantIff` is the exact condition.
- PoolQueryText.RoundTripIff: timeouts are reals, and characters beyond ASCII are left alone by lower-casing.
