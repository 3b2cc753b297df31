# BEAM code loading, tracing and notification, modelled in Dafny

The project models parts of the emulator under `otp/erts/emulator/beam` that are
hard to get right, and proves what they are for. Every module is on its own.

- `LiteralAreas`: literal areas of purged code are freed only after the per-scheduler
  block counters have drained. A step relation with a view of the block index for
  every scheduler, and the release structure updated in place.
- `CodeIndex`, `CodePermission`: the three copies of the code with staging, barrier and
  commit, and the permissions with their queues of waiting processes and jobs.
- `Breakpoints`, `BreakpointReaders`, `PidTable`, `TimemInfo`, `CallTime`: breakpoints
  with an active and a staging half and shared, reference counted data; the schedulers
  that use them meanwhile; the hash table of call time by process; collecting it for
  `trace:info`; attributing time to functions.
- `Catches`, `Ranges`, `Purge`: the catch table, the table of code addresses, and
  purging a module.
- `FlatMap`, `StackWalk`: updating a small map in a block on the heap, and walking a
  stack that may hold frames of the tracing.
- `CodeReader`, `IntegerDecode`: the instruction stream of a BEAM file, and its
  numbers, with the compiler's encoder.
- `BinaryToList`: the resumable conversion.
- `PonCondition`, `PonGc`: the condition variable that wakes a scheduler, and the
  collector that marks by notification.

Protocols are step relations over a state: a section under a mutex and an atomic
operation is one step, and weak ordering is a view that is stale until the next thread
progress or code barrier. What must hold is an invariant that every step keeps, and
the main results are about every run. Code that changes things in place is a class or
works on an array, and its methods refine the steps or functions of the model.

Some things the code is meant to do it does not do; the model keeps the code as it is.

- `pon_gc_remove_ref` starts to shift at index 1 whatever the place of the reference:
  `PonGc.RemoveRefCorrectIff`, `PonGc.RemoveRefDropsOther`.
- A full collection of `pon_gc.c` can free a reachable node:
  `PonGc.MarkSweepFreesReachable`, with the exact condition in `PonGcState.MarkSweep`.
  `pon_gc_node_free` checks nothing: `PonGcState.NodeFree`.
- Setting a call time breakpoint again loses the time it has counted:
  `CallTime.SettingTwiceLoses`, with the exact account in `CallTime.TimeIsConserved`.
- `pon_condition_wait` can lose a wakeup: `PonCondition.WakeupCanBeLost`, with the exact
  conditions in `WaitLosesIffUnarmed` and `ReturnsUnarmedIffExposed`.
- A refused purge request releases the stage permission of a purge that is going on:
  `Purge.HeldRightIff`, `Purge.RefusalStrands`.
- The code reader cannot tell a function header with a NIL line from one without a
  line: `CodeReader.NilLineIsLost`, and the condition in `CodeReader.ReadAll`.

`dafny verify dfyconfig.toml` checks the whole project.

## Model

| member | source | states |
|---|---|---|
| `LiteralAreas.FreedOnlyWhenUnblocked` | otp/erts/emulator/beam/beam_bif_load.c:1794-1954 | In every run, the area that is freed is the one switched out, and none of the blocks outstanding when it was switched out is still outstanding, although schedulers may read a stale block index until thread progress and new areas may be published meanwhile. |
| `LiteralAreas.FreeHasSwitch` | otp/erts/emulator/beam/beam_bif_load.c:1807-1954 | Every free is preceded by the index switch of its own area, with no other free in between. |
| `LiteralAreas.FreeIsDrained` | otp/erts/emulator/beam/beam_bif_load.c:1894-1954 | At a free every counter of the old index holds only the collector's own 1, and every outstanding block is of the new index. |
| `LiteralAreas.AreasInOrder` | otp/erts/emulator/beam/beam_bif_load.c:1726-1954 | In every reachable state the areas freed, blocked, published and queued are the areas enqueued, in order and each once; each counter is 1 plus its outstanding blocks except the one being waited on, which lacks the collector's 1; and a collector that sleeps although it could go on has a wakeup coming. |
| `LiteralAreas.StepKeepsInv` | otp/erts/emulator/beam/beam_bif_load.c:1465-1955 | Every step of schedulers, releasers and collector keeps the protocol's invariant. |
| `LiteralAreas.RunKeepsInv` | otp/erts/emulator/beam/beam_bif_load.c:1465-1955 | Hence every reachable state has it. |
| `LiteralAreas.SwitchHolds` | otp/erts/emulator/beam/beam_bif_load.c:1807-1946 | From an index switch to the free that belongs to it, the blocked area and the cut between old and new blocks stay. |
| `LiteralAreas.CallEnds` | otp/erts/emulator/beam/beam_bif_load.c:1794-1954 | A call of the collector makes at most 4n+5 steps for n schedulers, and no step of another party adds to them. |
| `LiteralAreas.TokenRoundTrip` | otp/erts/emulator/beam/beam_bif_load.c:1654-1724 | A block token gives back the block index and scheduler it was made from, and is never 0. |
| `LiteralAreas.ReleaseLiteralAreas.BlockRelease` | otp/erts/emulator/beam/beam_bif_load.c:1654-1691 | Counts the block on the index the scheduler sees, and keeps the invariant. |
| `LiteralAreas.ReleaseLiteralAreas.UnblockRelease` | otp/erts/emulator/beam/beam_bif_load.c:1693-1724 | Returns the block on the counter named by its token, and wakes the collector exactly when that counter reaches zero. |
| `LiteralAreas.ReleaseLiteralAreas.TakeNextArea` | otp/erts/emulator/beam/beam_bif_load.c:1726-1747 | Publishes the head of the queue, or nothing if it is empty. |
| `LiteralAreas.ReleaseLiteralAreas.SwitchStep` | otp/erts/emulator/beam/beam_bif_load.c:1794-1954 | One atomic step of the three-state loop in place refines the model's collector step. |
| `LiteralAreas.ReleaseLiteralAreas.QueueArea` | otp/erts/emulator/beam/beam_bif_load.c:2340-2373 | A new area goes to the end of the queue. |
| `CodePermission.StepKeepsInv` | otp/erts/emulator/beam/code_ix.c:215-361 | Every seize, release, rejection, exit and garbage collection keeps: one owner, a flag means ownership, a non-empty queue means seized. |
| `CodePermission.RunKeepsInv` | otp/erts/emulator/beam/code_ix.c:215-361 | Hence it holds in every reachable state of one permission. |
| `CodePermission.MutualExclusion` | otp/erts/emulator/beam/code_ix.c:215-290 | In every run two agents that hold the permission or have been handed it are the same agent, the owner. |
| `CodePermission.NoBarging` | otp/erts/emulator/beam/code_ix.c:226-260 | An agent, process or job, that obtains the permission found the wait queue empty or had been handed it. |
| `CodePermission.NobodyStranded` | otp/erts/emulator/beam/code_ix.c:260-361 | A suspended process that is not exiting is in the queue, and the permission is owned by somebody who knows. |
| `CodePermission.HandoffServesFirst` | otp/erts/emulator/beam/code_ix.c:292-361 | A release serves exactly the first waiter that is neither exiting nor garbage collecting, and of those it passes over it wakes exactly the ones that are not exiting. |
| `CodePermission.BoundedWaiting` | otp/erts/emulator/beam/code_ix.c:292-361 | The waiter at place k has left the queue, in its turn, after k+1 releases, in every run. |
| `CodePermission.ReleasesServe` | otp/erts/emulator/beam/code_ix.c:292-361 | Arrivals are served in order and every release serves at least one of those waiting. |
| `CodePermission.WaitQueue.LinkLast` | otp/erts/emulator/beam/code_ix.c:278-282 | The linked queue with a tail pointer: a new item goes last. |
| `CodePermission.WaitQueue.UnlinkFirst` | otp/erts/emulator/beam/code_ix.c:308-314 | The first item leaves, and the rest of the list is as before. |
| `CodePermission.Permission.TrySeizeProcess` | otp/erts/emulator/beam/code_ix.c:215-290 | Seizes, accepts a handover, or waits in the queue, as the protocol's step. |
| `CodePermission.Permission.TrySeizeAuxJob` | otp/erts/emulator/beam/code_ix.c:215-290 | The same for an auxiliary job. |
| `CodePermission.Permission.ReleasePermission` | otp/erts/emulator/beam/code_ix.c:292-361 | The loop that pops waiters, in place, is the protocol's release. |
| `CodeIndex.StepKeepsInv` | otp/erts/emulator/beam/code_ix.c:120-182 | Staging, barrier, commit, abort and purge keep: staging is active+1 mod 3, readers are on active or active+2, and who has passed the barrier is on active. |
| `CodeIndex.RunKeepsInv` | otp/erts/emulator/beam/code_ix.c:120-182 | Hence in every reachable state. |
| `CodeIndex.StagingIsUnread` | otp/erts/emulator/beam/code_ix.h:28-44 | Once booted, no scheduler sees or holds the index that staging writes. |
| `CodeIndex.CallSeesOneVersion` | otp/erts/emulator/beam/code_ix.c:120-182 | From its start to its end a call sees the same current modules, whatever is staged and committed meanwhile. |
| `CodeIndex.CallSeesWholeGroups` | otp/erts/emulator/beam/beam_bif_load.c:510-568 | What a call sees is one of the last two commits: a whole group load or none of it. |
| `CodeIndex.FindDuplicates` | otp/erts/emulator/beam/beam_bif_load.c:429-441 | Reports exactly the modules named more than once. |
| `CodeIndex.FindUnpurged` | otp/erts/emulator/beam/beam_bif_load.c:443-455 | Reports exactly the modules that still have old code and would make their current code old. |
| `CodeIndex.CodeIndices.FinishLoading` | otp/erts/emulator/beam/beam_bif_load.c:340-508 | Loads all the modules or none; on failure the staging is aborted and nothing is committed. |
| `CodeIndex.CodeIndices.LoadAll` | otp/erts/emulator/beam/beam_bif_load.c:484-496 | Every module of the group gets the new generation, its current code becomes old, and no other module changes. |
| `CodeIndex.GroupGrows` | otp/erts/emulator/beam/beam_bif_load.c:484-496 | Loading one more distinct module extends a correctly loaded group. |
| `CodeIndex.CodeIndices.StartStaging` | otp/erts/emulator/beam/code_ix.c:120-129 | The staging copy becomes the active one. |
| `CodeIndex.CodeIndices.CommitStaging` | otp/erts/emulator/beam/code_ix.c:142-171 | The staged copy becomes active and the index after it is staged next. |
| `CodeIndex.CodeIndices.AbortStaging` | otp/erts/emulator/beam/code_ix.c:173-182 | Nothing is committed. |
| `Breakpoints.NothingLeaks` | otp/erts/emulator/beam/beam_bp.c:2144-2407 | In every run an object is live exactly while some breakpoint half refers to it, and the last entry to leave takes everything with it. |
| `Breakpoints.StepKeepsInv` | otp/erts/emulator/beam/beam_debug.c:206-266 | Setting, clearing, installing, committing, uninstalling and consolidating, in the finisher's order, keep every reference count equal to the number of references, one entry for each session, and the list fit for the schedulers. |
| `Breakpoints.RunKeepsInv` | otp/erts/emulator/beam/beam_debug.c:206-266 | Hence in every reachable state. |
| `Breakpoints.SeenChangesAtCommit` | otp/erts/emulator/beam/beam_bp.c:561-568 | A call sees the old breakpoint until the commit and exactly the staged one from then on; no other step is visible to it. |
| `Breakpoints.RequestTakesEffect` | otp/erts/emulator/beam/beam_debug.c:206-240 | After the three stages of a request the list holds exactly the enabled sessions in order, both halves agree, and calls see what was staged. |
| `Breakpoints.CountsFollow` | otp/erts/emulator/beam/beam_bp.c:2366-2407 | The list determines every reference count. |
| `Breakpoints.RefIsLive` | otp/erts/emulator/beam/beam_bp.c:442-560 | What a half refers to has not been freed. |
| `Breakpoints.PendingOnce` | otp/erts/emulator/beam/beam_bp.c:2199-2210 | A second entry never waits to be linked. |
| `Breakpoints.ConsolidateMeaning` | otp/erts/emulator/beam/beam_bp.c:442-488 | Consolidation keeps the enabled entries in order with both halves as the active one. |
| `Breakpoints.KeptView` | otp/erts/emulator/beam/beam_bp.c:455-471 | Unlinking the disabled entries is not visible to a call. |
| `Breakpoints.ClearFromMeaning` | otp/erts/emulator/beam/beam_bp.c:2321-2364 | Clearing all sessions empties every staging half and changes no active one. |
| `Breakpoints.SetAt` | otp/erts/emulator/beam/beam_bp.c:2212-2294 | Setting a break changes one staging half as asked and keeps all counts exact. |
| `Breakpoints.ClearAt` | otp/erts/emulator/beam/beam_bp.c:2331-2364 | Clearing removes exactly the flags and references asked for and keeps all counts exact. |
| `Breakpoints.ConsolidateAt` | otp/erts/emulator/beam/beam_bp.c:491-559 | The staging half becomes a copy of the active one, with all counts exact at every step. |
| `Breakpoints.FunctionBreakpoint.SetFunctionBreak` | otp/erts/emulator/beam/beam_bp.c:2144-2294 | In place, with its search of the list, it is the step of the protocol. |
| `Breakpoints.FunctionBreakpoint.GetSession` | otp/erts/emulator/beam/beam_bp.c:2112-2136 | Finds the first entry of the session, to_insert included, or none. |
| `Breakpoints.FunctionBreakpoint.ClearFunctionBreak` | otp/erts/emulator/beam/beam_bp.c:2308-2319 | Clears in the session's entry, if there is one. |
| `Breakpoints.FunctionBreakpoint.ClearAllSessions` | otp/erts/emulator/beam/beam_bp.c:2321-2329 | Clears the staging half of every entry. |
| `Breakpoints.FunctionBreakpoint.Consolidate` | otp/erts/emulator/beam/beam_bp.c:442-488 | The loop over the list, with unlinking to the free list, is the protocol's consolidation. |
| `Breakpoints.FunctionBreakpoint.ConsolidateSession` | otp/erts/emulator/beam/beam_bp.c:491-559 | Drops the staging references and copies the active ones, in place. |
| `Breakpoints.FunctionBreakpoint.Install` | otp/erts/emulator/beam/beam_bp.c:570-665 | Puts the instruction in and links an entry that waits. |
| `Breakpoints.FunctionBreakpoint.Uninstall` | otp/erts/emulator/beam/beam_bp.c:704-757 | Takes the instruction out exactly when no linked entry is enabled. |
| `BreakpointReaders.ReadersAreSafe` | otp/erts/emulator/beam/beam_debug.c:206-266 | In every run of requests and schedulers, a scheduler sees the old half only between the switch of the halves and the next barrier, and an entry that is deallocated is looked at by nobody. |
| `BreakpointReaders.SeenChangesAtOwnStep` | otp/erts/emulator/beam/beam_bp.c:561-568 | What a scheduler sees is changed by no step of a request, only by its own, from the old breakpoint to the staged one. |
| `BreakpointReaders.WritesUnseenHalf` | otp/erts/emulator/beam/beam_bp.c:2144-2364 | A request never writes a half that some scheduler takes for the active one. |
| `BreakpointReaders.NotFreedWhileWalked` | otp/erts/emulator/beam/beam_bp.c:429-440 | An unlinked entry is deallocated only when no scheduler is looking at it. |
| `BreakpointReaders.StepKeepsSafe` | otp/erts/emulator/beam/beam_debug.c:206-266 | Every step of requests and schedulers keeps this. |
| `PidTable.PidHash.Accumulate` | otp/erts/emulator/beam/beam_bp.c:1990-2006 | The table as a map: the item is added to its pid's total, and no other pid changes. |
| `PidTable.PidHash.Put` | otp/erts/emulator/beam/beam_bp.c:1963-1988 | A new pid is added, after doubling when the table is more than 0.7 full. |
| `PidTable.PidHash.Rehash` | otp/erts/emulator/beam/beam_bp.c:1926-1948 | The doubled table holds the same map. |
| `PidTable.PidHash.Find` | otp/erts/emulator/beam/beam_bp.c:1949-1961 | Probing ends, and finds the pid exactly if it is in the map. |
| `PidTable.PidHash.HasRoom` | otp/erts/emulator/beam/beam_bp.c:1970-1978 | The load factor rule always leaves an empty bucket. |
| `PidTable.EmptyMeansAbsent` | otp/erts/emulator/beam/beam_bp.c:1949-1961 | An empty bucket on the probe sequence means that the pid is nowhere in the table. |
| `PidTable.FillKeepsTable` | otp/erts/emulator/beam/beam_bp.c:1980-1987 | Filling the first empty bucket keeps every other pid reachable by its probe sequence and adds exactly one pid to the map. |
| `PidTable.RoomMeansEmpty` | otp/erts/emulator/beam/beam_bp.c:1970-1984 | Fewer used buckets than buckets means that one is empty. |
| `PidTable.ProbesAreBounded` | otp/erts/emulator/beam/beam_bp.c:1982-1984 | Probing the table's length without success means that it is full. |
| `PidTable.Insert` | otp/erts/emulator/beam/beam_bp.c:1980-1987 | Inserting an absent pid adds it to the map. |
| `TimemInfo.CollectionLosesNothing` | otp/erts/emulator/beam/beam_bp.c:1490-1662 | After the two index switches and the consolidation the tables hold the old totals plus every accumulation any scheduler made meanwhile, for every pid and every run. |
| `TimemInfo.ReportIsExact` | otp/erts/emulator/beam/beam_bp.c:1579-1597 | The reported totals are those in the real tables when they are collected; together with what went to the temporary tables they make up all that was accumulated; and no scheduler still writes to the real tables. |
| `TimemInfo.StepKeepsInv` | otp/erts/emulator/beam/erl_bif_trace.c:2052-2101 | Each phase keeps the invariant that nothing is lost or counted twice. |
| `TimemInfo.AddThreadsMeaning` | otp/erts/emulator/beam/beam_bp.c:1599-1619 | Adding up the schedulers' tables gives every pid the sum of its entries. |
| `TimemInfo.CollectTimem` | otp/erts/emulator/beam/beam_bp.c:1599-1619 | The loops over schedulers and buckets compute that sum into the totals table. |
| `TimemInfo.AddTable` | otp/erts/emulator/beam/beam_bp.c:1599-1619 | The loop over one table adds each used bucket once. |
| `CallTime.TimeIsConserved` | otp/erts/emulator/beam/beam_bp.c:1276-1397 | In every run, for every interleaving of calls, returns, exceptions, scheduling and breakpoint requests: a session's tables over all functions and schedulers, plus the open interval, fall short of the time the process ran with a traced current function by exactly what was lost, and hold all of it if and only if no step lost anything. |
| `CallTime.StepKeepsInv` | otp/erts/emulator/beam/beam_bp.c:1276-1397 | With breakpoints set, paused, set again and removed, tables, open interval and what was lost add up to the time run, every call is counted, no table is negative, and a return frame always finds a current function. |
| `CallTime.RunKeepsInv` | otp/erts/emulator/beam/beam_bp.c:1276-1397 | Hence in every reachable state. |
| `CallTime.RunLosesNothing` | otp/erts/emulator/beam/beam_bp.c:2144-2294 | A run loses nothing while the breakpoints stay set: none is removed, and none that is set is set again or restarted. |
| `CallTime.StepLoses` | otp/erts/emulator/beam/beam_bp.c:2233-2241 | What a step loses is the contents of a table that is removed or renewed, or time of a current function whose breakpoint is gone, and never negative. |
| `CallTime.RunLoses` | otp/erts/emulator/beam/beam_bp.c:2144-2294 | A run loses the sum of what its steps lose, which is nothing exactly if no step loses. |
| `CallTime.SettingTwiceLoses` | otp/erts/emulator/beam/beam_bp.c:2233-2239 | Setting a call time breakpoint again, while it is set, loses the time it has counted: a run. |
| `CallTime.SetKeeps` | otp/erts/emulator/beam/beam_bp.c:2144-2294 | Setting, restarting and pausing a call time breakpoint keep the balance. |
| `CallTime.CallKeeps` | otp/erts/emulator/beam/beam_bp.c:1276-1332 | A call moves the open interval to the caller's table and opens a new one, in balance. |
| `CallTime.ReturnKeeps` | otp/erts/emulator/beam/beam_bp.c:1335-1397 | A return moves it to the callee's table and restores the caller, in balance. |
| `CallTime.CallTimer.TraceCallAcc` | otp/erts/emulator/beam/beam_bp.c:1276-1332 | In place, it is the call step. |
| `CallTime.CallTimer.CallTraceReturn` | otp/erts/emulator/beam/beam_bp.c:1335-1397 | In place, it is the return step. |
| `CallTime.CallTimer.TimeOut` | otp/erts/emulator/beam/beam_bp.c:2028-2046 | The loop over the sessions accounts for each of them. |
| `CallTime.CallTimer.TimeIn` | otp/erts/emulator/beam/beam_bp.c:2047-2060 | The loop restarts the interval of every session that has one. |
| `Catches.SlotsArePartitioned` | otp/erts/emulator/beam/beam_catches.c:77-203 | In every reachable state each slot below the high mark is in the free list or in one module's list, exactly once, and no list has a cycle. |
| `Catches.LookupFinds` | otp/erts/emulator/beam/beam_catches.c:146-154 | Through any of the three pools the catches of a module that is not purged are found in a vector that is still allocated, as they were entered. |
| `Catches.LookupSurvives` | otp/erts/emulator/beam/beam_catches.c:107-144 | No step but its own purge changes what the readers of the active pool find for a committed module: not staging, cons, growth or commit. |
| `Catches.StepKeepsInv` | otp/erts/emulator/beam/beam_catches.c:77-203 | Staging, cons, commit, abort before loading, and purging slot by slot keep the lists, the lookups, and the vectors allocated to exactly the pools that use them. |
| `Catches.RunKeepsInv` | otp/erts/emulator/beam/beam_catches.c:77-203 | Hence in every reachable state. |
| `Catches.PopKeeps` | otp/erts/emulator/beam/beam_catches.c:117-120 | Taking a slot from the free list keeps the partition. |
| `Catches.ExtendKeeps` | otp/erts/emulator/beam/beam_catches.c:134-138 | Taking the slot at the high mark keeps the partition. |
| `Catches.FreeOneKeeps` | otp/erts/emulator/beam/beam_catches.c:197-201 | Freeing the first slot of a module keeps the partition. |
| `Catches.GrowKeeps` | otp/erts/emulator/beam/beam_catches.c:122-133 | Doubling the table keeps all lists and lookups. |
| `Catches.GcExact` | otp/erts/emulator/beam/beam_catches.c:77-86 | Freeing the vector a pool has left, if no pool has it, keeps exactly the vectors in use. |
| `Catches.ChainNoDup` | otp/erts/emulator/beam/beam_catches.c:166-203 | A list that ends has no cycle. |
| `Catches.CatchTable.ConsCatch` | otp/erts/emulator/beam/beam_catches.c:107-144 | In place, it is the protocol's cons, and the slot it gives heads the module's list. |
| `Catches.CatchTable.StartStaging` | otp/erts/emulator/beam/beam_catches.c:89-100 | The staging pool becomes a copy of the active one. |
| `Catches.CatchTable.GcOldVec` | otp/erts/emulator/beam/beam_catches.c:77-86 | The loop frees the vector exactly if no pool points to it. |
| `Catches.CatchTable.DeleteModule` | otp/erts/emulator/beam/beam_catches.c:166-203 | All slots of the module go to the free list, in reverse, and neither sanity check stops the system. |
| `Catches.CatchTable.Lookup` | otp/erts/emulator/beam/beam_catches.c:146-154 | Gives the catch of any module the active pool knows. |
| `FlatMap.MergeOverrides` | otp/erts/emulator/beam/beam_common.c:2080-2166 | For every key, the merged map gives the update's value if there is one and the old value otherwise. |
| `FlatMap.MergeSorted` | otp/erts/emulator/beam/beam_common.c:2080-2166 | The merged keys are strictly sorted. |
| `FlatMap.MergeOldKeys` | otp/erts/emulator/beam/beam_common.c:2143-2155 | The old key tuple serves exactly when all update keys are old. |
| `FlatMap.UpdateAssoc` | otp/erts/emulator/beam/beam_common.c:2001-2196 | The block holds the merge, within the heap that was reserved, and can be walked object by object; the old map is returned exactly when nothing changes and the old keys are kept exactly when no key is new. |
| `FlatMap.MergeLoop` | otp/erts/emulator/beam/beam_common.c:2080-2114 | The loop writes a prefix of the merge, and knows whether keys or values differ from the old ones. |
| `FlatMap.Finish` | otp/erts/emulator/beam/beam_common.c:2168-2185 | The gap after the values is filled so that the block can be walked. |
| `FlatMap.KeepKeys` | otp/erts/emulator/beam/beam_common.c:2143-2155 | Only values are copied and the old key tuple is kept. |
| `FlatMap.UpdateExact` | otp/erts/emulator/beam/beam_common.c:2256-2343 | Succeeds exactly if every update key exists, and then agrees with the associative update; otherwise reports the first missing key. |
| `FlatMap.KeySortSuffices` | otp/erts/emulator/beam/beam_transform_helpers.c:53-115 | Any sort of the pairs by key gives the order the merge needs exactly when the keys are distinct. |
| `StackWalk.GatherStacktrace` | otp/erts/emulator/beam/beam_common.c:781-843 | The stack trace is that of the stack with its trace frames erased, whatever their data words look like, for both frame layouts. |
| `StackWalk.TraceIgnoresTracing` | otp/erts/emulator/beam/beam_common.c:781-843 | The trace specification ignores trace frames. |
| `StackWalk.PrintableReturnAddress` | otp/erts/emulator/beam/beam_common.c:413-437 | The address found is the first return address of the stack with its trace frames erased. |
| `StackWalk.NextCatch` | otp/erts/emulator/beam/beam_common.c:580-679 | Finds the first catch tag if a catch is active, clears it, cuts the stack to its frame, and lowers return_trace_frames by exactly the return-trace frames passed. |
| `StackWalk.CatchIgnoresTracing` | otp/erts/emulator/beam/beam_common.c:580-679 | The handler, and the frame it is in, are those on the stack with its trace frames erased. |
| `StackWalk.ScanForCatch` | otp/erts/emulator/beam/beam_common.c:591-641 | The scan, with return_trace_frames positive whenever it is lowered. |
| `StackWalk.Inspect` | otp/erts/emulator/beam/beam_common.h:306-318 | At every item the walkers read the right return address and skip exactly the item. |
| `CodeReader.ReadAll` | otp/erts/emulator/beam/beam_file.c:2461-2605 | For every readable module the synthesized starts and ends alternate, each end carries its own function's labels, and writing the starts out and dropping the ends gives the file's instructions up to the end of the code without the NIL lines of function headers: all of them exactly if there is no such line. |
| `CodeReader.FillExpands` | otp/erts/emulator/beam/beam_file.c:2491-2604 | What is queued stands for the instructions that were read, except for a NIL line of a function header. |
| `CodeReader.FillScans` | otp/erts/emulator/beam/beam_file.c:2491-2604 | What is queued closes the function before it opens the next. |
| `CodeReader.NoNilLine` | otp/erts/emulator/beam/beam_file.c:2556-2564 | A module without NIL lines loses nothing. |
| `CodeReader.NilLineIsLost` | otp/erts/emulator/beam/beam_file.c:2556-2564 | A module with a NIL line in a function header is read, and stands for one instruction less. |
| `CodeReader.WholeShape` | otp/erts/emulator/beam/beam_file.c:2480-2605 | Nothing is left out of a module but the NIL lines of function headers. |
| `CodeReader.ProgressMore` | otp/erts/emulator/beam/beam_file.c:2480-2605 | Filling the queue once more keeps the whole output right. |
| `CodeReader.Reader.Next` | otp/erts/emulator/beam/beam_file.c:2480-2605 | One instruction out, with the reader's invariant kept; fails only if the module cannot be read to its end. |
| `CodeReader.Reader.FillLabel` | otp/erts/emulator/beam/beam_file.c:2494-2591 | The look-ahead after a label fills the queue as specified. |
| `CodeReader.Reader.SynthesizeFuncEnd` | otp/erts/emulator/beam/beam_file.c:2461-2478 | Puts the end of the current function first in the queue. |
| `IntegerDecode.RoundTrip` | otp/lib/compiler/src/beam_asm.erl:846-862 | What the compiler encodes, for every tag and every integer of any length, the loader reads back, with whatever follows left alone. |
| `IntegerDecode.LoadEncoded` | otp/erts/emulator/beam/beam_file.c:2134-2232 | The loader, given what the compiler wrote for any integer, gives the same integer as a small or a bignum, unless it is beyond the largest bignum, and never takes it for corrupt. |
| `IntegerDecode.BytesValue` | otp/lib/compiler/src/beam_asm.erl:863-878 | The compiler's bytes are the two's complement of the integer, with no more than one byte to spare. |
| `IntegerDecode.MarshalInteger` | otp/erts/emulator/beam/beam_file.c:2134-2232 | Whole words with the same value, the last not zero, within the buffer; corrupt exactly if two leading bytes carry nothing; too big exactly beyond the largest bignum. |
| `IntegerDecode.Negate` | otp/erts/emulator/beam/beam_file.c:2176-2183 | Negation in place with a carry: the bytes before and after add up to a power of 256. |
| `IntegerDecode.Magnitude` | otp/erts/emulator/beam/beam_file.c:2168-2184 | Reversed and negated, the bytes are the absolute value, and the final carry is 0. |
| `IntegerDecode.Strip` | otp/erts/emulator/beam/beam_file.c:2186-2203 | A leading zero is cut without changing the value; a second one is refused. |
| `IntegerDecode.Align` | otp/erts/emulator/beam/beam_file.c:2205-2208 | Padding to whole words keeps the value and stays in the buffer. |
| `IntegerDecode.UnpackVarint` | otp/erts/emulator/beam/beam_file.c:150-165 | The big-endian value of up to eight bytes. |
| `IntegerDecode.SignExtends` | otp/erts/emulator/beam/beam_file.c:211-216 | Shifting left and back gives the two's complement value. |
| `IntegerDecode.BeamReader.ReadTagged` | otp/erts/emulator/beam/beam_file.c:167-236 | Reads one number in any of its forms, nested size prefix included, and advances past it. |
| `IntegerDecode.ClassifyBytes` | otp/erts/emulator/beam/beam_file.c:208-232 | A small, a word, the bytes of a large integer, or an overflow, by the value of the bytes. |
| `Ranges.RangeTables.Lookup` | otp/erts/emulator/beam/beam_ranges.c:307-328 | After any sequence of operations, at any time while a load is staged or waits for its commit, and from any cached start point, exactly the live range that contains pc is found, or none if there is none. |
| `Ranges.RangeTables.Remove` | otp/erts/emulator/beam/beam_ranges.c:223-228 | Purging removes exactly that module's range from what lookups find. |
| `Ranges.RangeTables.EndStaging` | otp/erts/emulator/beam/beam_ranges.c:136-191 | The staged table is sorted and disjoint and has the unpurged old ranges and the new ones, and lookups go on finding the committed ones. |
| `Ranges.RangeTables.CommitStaging` | otp/erts/emulator/beam/code_ix.c:142-171 | Lookups find the staged table's ranges. |
| `Ranges.RangeTables.Update` | otp/erts/emulator/beam/beam_ranges.c:193-221 | One more staged range, within the room that was reserved. |
| `Ranges.RangeTables.StartStaging` | otp/erts/emulator/beam/beam_ranges.c:117-134 | A table with room for all old and new ranges. |
| `Ranges.CommitMeaning` | otp/erts/emulator/beam/beam_ranges.c:136-191 | Filtering and sorting give an ordered table of the old live ranges and the new ones. |
| `Ranges.PurgeMeaning` | otp/erts/emulator/beam/beam_ranges.c:223-228 | Emptying one range in place keeps the table ordered. |
| `Ranges.SortOrdered` | otp/erts/emulator/beam/beam_ranges.c:159-176 | Inserting disjoint ranges one by one gives an ordered table. |
| `Ranges.OrderedUnique` | otp/erts/emulator/beam/beam_ranges.c:166-168 | An ordered table is determined by its ranges, so that it does not matter which sort is used. |
| `Ranges.Sift` | otp/erts/emulator/beam/beam_ranges.c:169-175 | The first row is moved into its place and nothing else changes order. |
| `Ranges.BuildTable` | otp/erts/emulator/beam/beam_ranges.c:146-176 | Copies the unpurged rows after the new ones and sorts. |
| `Ranges.FindRange` | otp/erts/emulator/beam/beam_ranges.c:307-328 | Binary search from any start point. |
| `Ranges.FindFunction` | otp/erts/emulator/beam/beam_ranges.c:262-279 | Finds the function that contains pc exactly if pc is within the module's functions. |
| `Purge.NobodyLeftSuspended` | otp/erts/emulator/beam/beam_bif_load.c:1976-2085 | In every run of a purger that follows prepare with abort or complete: when no purge is on, every live process has been resumed as often as it was suspended, and the stage permission is not held. |
| `Purge.StepKeepsInv` | otp/erts/emulator/beam/beam_bif_load.c:2088-2326 | The stage permission is held during a purge exactly if there are funs to purge, and every suspended live process is recorded once. |
| `Purge.RunKeepsInv` | otp/erts/emulator/beam/beam_bif_load.c:2088-2326 | Hence in every reachable state. |
| `Purge.HeldRightIff` | otp/erts/emulator/beam/beam_bif_load.c:2329-2336 | A step keeps the permission right exactly if it is not a refused request during a purge that has funs. |
| `Purge.RefusalStrands` | otp/erts/emulator/beam/beam_bif_load.c:2329-2336 | A purge prepared twice loses the stage permission while it has funs, and its completion then releases a permission it does not hold. |
| `Purge.FinalizeResumes` | otp/erts/emulator/beam/beam_bif_load.c:2010-2058 | Ending a purge resumes every live process it suspended exactly once. |
| `Purge.PurgeState.SuspendOnPending` | otp/erts/emulator/beam/beam_bif_load.c:1976-2008 | Suspends and records the caller exactly if its module is being purged, across growth of the array. |
| `Purge.PurgeState.AddFun` | otp/erts/emulator/beam/beam_bif_load.c:1957-1974 | Records a fun, across growth of the array. |
| `Purge.PurgeState.FinalizePurge` | otp/erts/emulator/beam/beam_bif_load.c:2010-2058 | The loop takes one suspension off every recorded process that is alive, and resets the state. |
| `BinaryToList.BinaryToList` | otp/erts/emulator/beam/binary.c:306-352 | For every bit offset and whatever reductions are left, the list is that of the 8-bit groups; a bit string that is not whole bytes is refused. |
| `BinaryToList.ToListInChunks` | otp/erts/emulator/beam/binary.c:201-304 | The resumable conversion ends, after at most one chunk for each 256 bytes, with the list that the conversion at once gives. |
| `BinaryToList.B2LState.Chunk` | otp/erts/emulator/beam/binary.c:201-253 | One chunk, from the end of what is left, keeps the list right. |
| `BinaryToList.BytesToList` | otp/erts/emulator/beam/binary.c:57-78 | The loops, aligned or straddling two bytes, give the 8-bit groups at the offset. |
| `BinaryToList.StraddleIsGroup` | otp/erts/emulator/beam/binary.c:66-75 | The shifted parts of two neighbouring bytes are the eight bits at the offset. |
| `PonCondition.StepConserves` | otp/erts/emulator/beam/pon_condition.c:85-229 | Every step keeps: the processes notified are those in the list and those delivered, none twice, and a head seen again by try_dequeue means the same list. |
| `PonCondition.WaitLosesIffUnarmed` | otp/erts/emulator/beam/pon_condition.c:128-198 | A wait can fall asleep for good with a process ready exactly if it is entered with the flag set for no reason. |
| `PonCondition.ReturnsUnarmedIffExposed` | otp/erts/emulator/beam/pon_condition.c:149-168 | A wait that has taken the list can return in that way exactly if a notifier had pushed but not yet set the flag. |
| `PonCondition.NoWakeupLost` | otp/erts/emulator/beam/pon_condition.c:85-198 | In every run in which that never happens no wakeup is lost. |
| `PonCondition.WakeupCanBeLost` | otp/erts/emulator/beam/pon_condition.c:85-198 | It can happen: a run from the initial state that loses a wakeup. |
| `PonCondition.OtherDescriptorCanLose` | otp/erts/emulator/beam/pon_condition.c:187-196 | So can a return of epoll_wait for another descriptor. |
| `PonCondition.WaitKeeps` | otp/erts/emulator/beam/pon_condition.c:128-198 | What holds at each point of a wait that was entered armed. |
| `PonGc.PonGcState.MarkSweep` | otp/erts/emulator/beam/pon_gc.c:379-388 | A full collection keeps exactly the survivors with their references and counts the dead; the heap is sound after it exactly if whatever a black node referred to survives, and nothing reachable is freed exactly if that holds of the reachable black nodes. |
| `PonGc.KeepsReachableIff` | otp/erts/emulator/beam/pon_gc.c:290-310 | Nothing reachable is freed exactly if whatever a reachable black node refers to survives. |
| `PonGc.MarkClosedIff` | otp/erts/emulator/beam/pon_gc.c:290-310 | A complete mark is closed exactly if whatever a black node referred to survives. |
| `PonGc.MarkSweepFreesReachable` | otp/erts/emulator/beam/pon_gc.c:290-388 | A full collection can free a reachable node: two nodes, a root, a mark, a reference from the black root to the white node, and a collection. |
| `PonGc.PonGcState.NodeFree` | otp/erts/emulator/beam/pon_gc.c:171-198 | Freeing a node is right exactly if it is white, not a root, and no other node refers to it; otherwise a root, a reference or the live count is wrong. |
| `PonGc.PonGcState.Mark` | otp/erts/emulator/beam/pon_gc.c:290-310 | Marks exactly the survivors and counts them. |
| `PonGc.PonGcState.Sweep` | otp/erts/emulator/beam/pon_gc.c:342-373 | The loop frees exactly the white nodes and whitens the others. |
| `PonGc.PonGcState.SweptIsSound` | otp/erts/emulator/beam/pon_gc.c:342-373 | A sweep leaves a sound heap exactly when no root and no coloured node refers to a white node. |
| `PonGc.PonGcState.PropagateHead` | otp/erts/emulator/beam/pon_gc.c:59-94 | The oldest grey node becomes black and its white targets grey. |
| `PonGc.PonGcState.EnqueueGray` | otp/erts/emulator/beam/pon_gc.c:39-54 | Only a white node becomes grey and is queued. |
| `PonGc.PonGcState.NodeCreate` | otp/erts/emulator/beam/pon_gc.c:111-166 | A new white node, first in the list. |
| `PonGc.PonGcState.RemoveReference` | otp/erts/emulator/beam/pon_gc.c:239-259 | The reference array after the source's shift. |
| `PonGc.PonGcState.Step` | otp/erts/emulator/beam/pon_gc.c:316-335 | Between collections the queue is empty, so that a step is always done at once. |
| `PonGc.PonGcState.Reset` | otp/erts/emulator/beam/pon_gc.c:393-416 | Every node is white again. |
| `PonGc.TriColorIsSafe` | otp/erts/emulator/beam/pon_gc.c:290-310 | Without a black to white reference, everything reachable survives. |
| `PonGc.SurvivorsFromWhite` | otp/erts/emulator/beam/pon_gc.c:290-310 | From all white, exactly the reachable nodes survive. |
| `PonGc.MarkedIsSurvivors` | otp/erts/emulator/beam/pon_gc.c:290-310 | When the queue is empty and all roots are coloured, coloured means survivor. |
| `PonGc.AddRefKeepsTriColorIff` | otp/erts/emulator/beam/pon_gc.c:214-234 | Adding a reference keeps that condition exactly if it is not from a black node to a white one. |
| `PonGc.BlackToWhiteLoses` | otp/erts/emulator/beam/pon_gc.c:214-234 | Otherwise a reachable node can be freed. |
| `PonGc.RemoveRefCorrectIff` | otp/erts/emulator/beam/pon_gc.c:239-259 | Removing a reference takes out the right one exactly if it is the only one or the second. |
| `PonGc.RemoveRefDropsOther` | otp/erts/emulator/beam/pon_gc.c:239-259 | Removing the first of two references removes the second: the node to be dropped stays reachable and the other one is not reachable any more. |
| `PonGc.SweptDanglesUnlessClosed` | otp/erts/emulator/beam/pon_gc.c:342-373 | After a sweep there is no dangling reference exactly when the colours were closed. |
| `PonGc.SweepMeaning` | otp/erts/emulator/beam/pon_gc.c:342-373 | What the sweep leaves, node by node. |
| `PonGc.SweepCounts` | otp/erts/emulator/beam/pon_gc.c:342-373 | The nodes kept, freed and the bytes freed. |

## Left out

- Memory ordering below the level of thread progress, process locks, and garbage collection of terms.
- The loop of the literal area collector is modelled as one method for each atomic step, since schedulers act between two of them.
- `CodePermission`: both permissions together; a process that retries a load can keep one while it waits for the other, so that only properties of one permission hold.
- `CodeIndex`: on_load code, and the export, fun and module tables behind a code index.
- `Breakpoints`: match specifications, whose binaries are also counted elsewhere; the contents of counters; several functions in one request; line breakpoints.
- Breakpoints.FunctionBreakpoint.ClearAllSessions: states the list and that the counts are exact, which determine the counts.
- `TimemInfo`, `CallTime`: call memory, which is accumulated in the same way as time; a return frame that is shared by time and memory tracing restores what memory tracing saw.
- `CallTime`: the two halves of a breakpoint; a request takes effect at its commit.
- `BreakpointReaders`: a stale view of the list and of the instruction; a scheduler reads both as they are when it runs into the breakpoint, and only its view of the active half can be stale.
- `Catches`: aborting a staging after catches were consed, which the loader does not do; the 32-bit index.
- Catches.CatchTable.DeleteModule: the vectors of the three pools are sequences under a name, so that sharing and freeing are captured but not addresses.
- `FlatMap`: hash maps, the new map that is made when the old one is empty, and fetching terms from registers; keys are places in the term order.
- `StackWalk`: the trace messages sent on the way, and the marks for return_to tracing.
- `CodeReader`: decoding an instruction; an instruction that cannot be decoded is the end of the stream.
- `IntegerDecode`: making the bignum term from its words; an or of bits that do not overlap is written as a sum.
- IntegerDecode.RoundTrip: an integer whose bytes are so many that their number does not fit 31 bits, which the loader refuses.
- `Ranges`: the C library's sort, which is replaced by repeated sifting; line tables.
- Ranges.RangeTables.Update: more modules than were announced to StartStaging, for which the source has no room either.
- `Purge`: the requests are modelled on values; processes checked for references to the code; on_load.
- `BinaryToList`: bitstring_to_list and binary_to_list/3, which call the same conversion; yielding once for a full budget, which starts over.
- `PonCondition`: modelled on values; the list is threaded through the processes, which may be in it once, and epoll and eventfd are a counter.
- PonCondition.StepConserves: a process is notified again only after it has left the list, through which it is threaded; a second notification before that would make the list cyclic. `pon_condition_is_satisfied`, which reads the flag.
- `PonGc`: the lookup by id, the 16-bit capacity of the reference array, and freeing the data.
- PonCondition.NoWakeupLost: for descriptors other than the condition's own the epoll set has to be empty, see PonCondition.OtherDescriptorCanLose.
- pon_premise.c, pon_ets.c, pon_timer.c, drivers, ports and reports are not part of this model.
