# Formosa GPU: verified models of the command path

This project models the path of a GPU command through Formosa and proves what the parts promise each
other: the host library that hands out completion tokens and fills the command ring, the command
processor's firmware tasks, the launch and retirement of work-groups, the local-memory allocator, the
memory copy with its cache maintenance, and the work-group initializer of one streaming multiprocessor
(SM). The firmware's number printer and parser come with it. Check everything with
`dafny verify dfyconfig.toml`.

## How the model is laid out

| files | part of the system |
|---|---|
| `Arithmetic`, `Bits`, `Options`, `Runs` | shared: products and quotients, bitwise operators, optional values, runs of a transition system |
| `WarpCore`, `WgScheduler`, `WgInvariant`, `WgPasses`, `WgTheorems`, `WgOutcomes`, `WgWakeups`, `WgService`, `WgInitializer` | the work-group initializer and the core it commands |
| `LmemTable`, `LmemTheorems`, `LmemAllocator` | local-memory allocator of one SM |
| `FwTasks`, `FwInvariant`, `FwSteps`, `FwTheorems`, `FwMaintenance`, `FwKinds`, `FwClaims`, `FwRefusals`, `FwProgress` | the four firmware tasks, interleaved |
| `CacheController` | maintenance controller of one cache |
| `LaunchIds`, `Launch`, `LaunchTheorems`, `LaunchProgress` | one kernel launch and its retirement |
| `CopyChecks`, `CopyCoherence`, `CopyTheorems` | checks and coherence of a memory copy |
| `CopySystem` | the firmware's tasks and the memory of a copy as one system |
| `Tokens`, `TokenBits`, `HostTokens`, `HostProtocol`, `HostTheorems`, `HostAccounts`, `HostCalls`, `HostProgress` | completion tokens, slot pool and command ring |
| `Numerals`, `Printer`, `Parser` | printf digits and strtol |
| `EndToEnd` | a launch and the initializers of all its SMs as one system |
| `CommandPath`, `CommandPolls` | host, firmware and launch as one system |

Code that changes state in place is a class or a method with loops, proved equal to a function on
values; the properties are proved about those functions. Protocols between concurrent parties are
transition systems: `Reachable` means reachable by any interleaving, and a step that the code does with
interrupts off or under a lock is one step.

What the models take as given:

- A core (`WarpCore`) obeys the contract of `ilha/include/ilha/warp_ctrl.h:68-75`: one of four states
  per warp, a refused command has no effect, an accepted one is applied at once, an aborted or released
  warp ends idle. `credit` is the number of commands it accepts before it refuses; it changes only
  while the initializer waits.
- A work-group needs at most as many warps as the core has (`ilha/src/wg_initializer.cc:565-566`).
- A launch has fewer than 2^31 work-groups (`fw/cp_kernel_dispatch.c:157`), and less than 2^16 bytes of
  local memory per group, the width of its packet field.
- A store to a START register has reached the cache controller, or made the DMA engine busy, before the
  next access of the firmware (`fw/cp_cache.h:33-37`).
- A local-memory window ends below 2^64, so no sum of a base and a size wraps.
- The last cache to finish an operation of a memory copy, and the DMA engine that reports a transfer done,
  have handled every line and every byte of it (`CopySystem.EndsAreReal`); the D-cache in question is the
  one with dirty lines, of a single SM.
- A timeout of the memory copy may strike in any pass of its task (`phase_timed_out`).
- An event that `StateChangeThread` waits for sets its flag in the step that notifies it. `ok_to_put` is
  notified when a core that refuses commands accepts them again.
- Negating the lowest number of a signed type in `i2a`, `li2a` and `lli2a` wraps, as two's-complement
  arithmetic does; C leaves it undefined.
- Completion tokens in the ring are different; that the host keeps them so is proved in `HostTheorems`.

## Model

| member | source | states |
|---|---|---|
| `WgTheorems.NoStuckState` | ilha/src/wg_initializer.cc:222-612 | in every reachable state with a resident work-group, a willing core, no active warp and no pending termination, a full pass gets a command accepted, retires a group or reports a barrier deadlock |
| `WgTheorems.ReachableInv` | ilha/src/wg_initializer.cc:222-612 | over every interleaving of passes, core steps and FIFO traffic: owned warps are activated minus completed ones, an unowned warp is idle, an owned idle warp is pending termination, a slot retires with no owned warp, accepted activations of an untrapped group tile its warp ids |
| `WgTheorems.ResumeOnlyWholeGroups` | ilha/src/wg_initializer.cc:377-441 | a resumed group has all its warps activated, none exited, and all of them at the barrier |
| `WgTheorems.DeadlockIsReal` | ilha/src/wg_initializer.cc:402-408 | the test on the counts holds exactly when some warp of the group exited and all the rest wait at a barrier |
| `WgTheorems.DeadlockIsReported` | ilha/src/wg_initializer.cc:377-441 | a pass ends with a deadlock report exactly when a group is so stranded, and names the lowest slot of one |
| `WgWakeups.NoLostWakeup` | ilha/src/wg_initializer.cc:209-233 | over every run, while ProcessThread waits with process_pending_ down, a pass would get a command accepted, retire or take a group or report a deadlock exactly when the last pass dropped an empty group, another group waits behind it and the core takes commands |
| `WgWakeups.QuiescentIsAwake` | ilha/src/wg_initializer.cc:209-226 | with a resident group, a willing core, no active warp and no pending termination, a pass is due, but for that exception |
| `WgWakeups.WaitingGroupWakes` | ilha/src/wg_initializer.cc:536-560 | with none resident and a willing core, a waiting group has a pass due, but for that exception |
| `WgWakeups.DroppedGroupStalls` | ilha/src/wg_initializer.cc:562-580 | a run to a state where a group waits behind a dropped one with none resident, the core willing and no pass due |
| `WgOutcomes.PartialGroupIsYoungest` | ilha/src/wg_initializer.cc:483-534 | at most one resident group is partly activated, and every other resident group arrived before it |
| `WgOutcomes.ActivatesInArrivalOrder` | ilha/src/wg_initializer.cc:483-612 | over every run, accepted activations go to groups in arrival order |
| `WgOutcomes.DeliveredExactlyOnce` | ilha/src/wg_initializer.cc:179-207 | an arrived group with threads is either resident or delivered, never both and never twice, with its own kernel PC and info pointer; an empty group is neither |
| `WgOutcomes.ReportIsTrue` | ilha/src/wg_initializer.cc:241-294 | a delivered report is an exception exactly when a warp of the group trapped with a cause other than 11, and then carries the registers seen first; an okay report carries cause 11, and the accepted activations gave the group's kernel to warps 0 to n-1, each once, where n warps hold all its threads and n-1 do not |
| `WgOutcomes.FirstSightDecides` | ilha/src/wg_initializer.cc:35-52 | the record of a group has mcause (its low 32 bits), mepc and mtval, each from the register of that name, of its lowest-numbered trapping warp in the first pass that saw a trap |
| `WgOutcomes.FirstTrapStays` | ilha/src/wg_initializer.cc:241-294 | no later step changes that record, whatever commands the core refuses |
| `WgOutcomes.WarpsHoldTheThreads` | ilha/src/wg_initializer.cc:562-566 | a resident group is given n warps where n warps hold all its threads and n-1 do not |
| `WgOutcomes.TrapStopsTheGroup` | ilha/src/wg_initializer.cc:296-326 | from every reachable state with room for two commands, a pass leaves a warp stopping exactly when it runs for a group and either trapped itself or its group has trapped, whether it was active or at a barrier; with less room it stops no other |
| `WgService.StoppedWarpsAreGivenUp` | ilha/src/wg_initializer.cc:328-357 | after the first half of a pass a warp belongs to a group exactly when it did before and is not idle |
| `WgService.BarrierOpens` | ilha/src/wg_initializer.cc:377-441 | a pass that meets no deadlock, with a willing core, makes a waiting warp active exactly when its group is activated in full, none of it has exited and all of it waits |
| `WgService.PassServes` | ilha/src/wg_initializer.cc:483-612 | with room for three commands and no deadlock, a pass takes the group at the head of the FIFO exactly when a slot is vacant and more warps are free than a partly activated group still lacks, and leaves a group partly activated only if no warp is free |
| `WgPasses.LowestComeFirst` | ilha/src/wg_initializer.cc:483-534 | the warps taken are free, as many as asked for or all there are, and no free warp below one of them is passed over |
| `WgInitializer.CheckForErrorException` | ilha/src/wg_initializer.cc:22-33 | true exactly when a warp in the mask has a cause other than 11 |
| `WgInitializer.FindFirstExceptionWarp` | ilha/src/wg_initializer.cc:35-52 | the lowest warp in the mask, of those with an error cause when one is asked for |
| `WgInitializer.BarrierPCsDiffer` | ilha/src/wg_initializer.cc:453-468 | true exactly when two waiting warps of the group stand at different barriers |
| `WgInitializer.FindVacantProcessingWG` | ilha/src/wg_initializer.h:158-168 | the lowest slot not in use, or none |
| `WgInitializer.Initializer.TryWarpCtrlCommand` | ilha/src/wg_initializer.cc:235-239 | refines `WgScheduler.Try`: a refused command changes nothing |
| `WgInitializer.Initializer.HandleExceptionWarps` | ilha/src/wg_initializer.cc:241-294 | the loop over slots has the effect of deciding every slot on the state at entry |
| `WgInitializer.Initializer.IssueTerminations` | ilha/src/wg_initializer.cc:296-326 | one abort and one release over the whole core, each marked pending exactly when accepted; `WgOutcomes.TrapStopsTheGroup` says whom they reach |
| `WgInitializer.Initializer.HandleStoppedWarps` | ilha/src/wg_initializer.cc:328-357 | drained warps lose their owner and count as completed; exactly the finished groups are listed |
| `WgInitializer.Initializer.RetireWG` | ilha/src/wg_initializer.cc:359-375 | the group's record enters the dequeue FIFO, and its slot leaves the order and becomes vacant |
| `WgInitializer.Initializer.HandleBarrierWarps` | ilha/src/wg_initializer.cc:377-441 | resumes every complete barrier in one command, unless some slot deadlocks |
| `WgInitializer.Initializer.DispatchRemainingWarps` | ilha/src/wg_initializer.cc:483-534 | activates the lowest free warps for the first group in order that is not activated in full |
| `WgInitializer.Initializer.DispatchNewWG` | ilha/src/wg_initializer.cc:536-612 | starts the group at the head of the FIFO when a slot, a free warp and the core are available; a group of size zero is dropped; `WgOutcomes.WarpsHoldTheThreads` says how many warps it gets |
| `WgInitializer.Initializer.BeginProcess` | ilha/src/wg_initializer.cc:222-233 | the first three handlers together are `WgScheduler.BeginPass` |
| `WgInitializer.Initializer.EndProcess` | ilha/src/wg_initializer.cc:222-233 | the last three handlers together are `WgScheduler.EndPass` |
| `LmemTable.AlignUpCovers` | fw/cp_lmem_allocator.c:43-50 | the rounded size covers the request exactly for requests up to 2^64-256; above that it is zero |
| `LmemTheorems.RunInv` | fw/cp_lmem_allocator.c:52-149 | after any sequence of allocations and releases, free regions are sorted, apart and aligned, live blocks are disjoint, each byte of the window is free or live and not both, and both counters match |
| `LmemTheorems.WrappedRequestBreaksTable` | fw/cp_lmem_allocator.c:206-212 | a request above 2^64-256 keeps that invariant exactly when it fails for want of an entry or a region |
| `LmemTheorems.RegionsAreMaximalGaps` | fw/cp_lmem_allocator.c:52-64 | a region is in the free array exactly when it is a maximal gap between live blocks |
| `LmemTheorems.FreeArrayIsCanonical` | fw/cp_lmem_allocator.c:52-149 | the free regions depend only on which bytes are live |
| `LmemAllocator.ArrayIsCanonical` | fw/cp_lmem_allocator.c:107-114 | so does the whole array, with zeroes behind the free regions |
| `LmemTheorems.FreeCountBound` | fw/cp_lmem_allocator.c:134-137 | there is at most one free region more than live blocks |
| `LmemTheorems.ReleaseNeverFails` | fw/cp_lmem_allocator.c:294-338 | a release succeeds exactly for the base of a live block, and its region always fits in the array |
| `LmemTheorems.AllocIsLeastFit` | fw/cp_lmem_allocator.c:199-292 | with an entry to spare, allocation succeeds exactly when some run of the rounded size avoids all live blocks, and returns the least such address |
| `LmemTheorems.ReleaseUndoesAlloc` | fw/cp_lmem_allocator.c:268-273 | releasing a block just allocated restores the table |
| `LmemTheorems.UnusedExists` | fw/cp_lmem_allocator.c:259-273 | below the resident limit an unused entry is found, so the rollback branch is never taken |
| `LmemAllocator.RemoveRegion` | fw/cp_lmem_allocator.c:107-114 | in place: one entry gone, later ones moved down, the last one zeroed |
| `LmemAllocator.InsertRegion` | fw/cp_lmem_allocator.c:139-146 | in place: one entry added, later ones moved up |
| `LmemAllocator.Allocator.constructor` | fw/cp_lmem_allocator.c:151-184 | one free region covers the window |
| `LmemAllocator.Allocator.InsertAndCoalesce` | fw/cp_lmem_allocator.c:65-149 | succeeds exactly when the block is away from every free region and the result fits; then the array holds the merged insertion, and otherwise it is unchanged |
| `LmemAllocator.Allocator.Allocate` | fw/cp_lmem_allocator.c:199-292 | arrays and counters end as `LmemTable.Alloc` says, and stay valid |
| `LmemAllocator.Allocator.Release` | fw/cp_lmem_allocator.c:294-338 | arrays and counters end as `LmemTable.Free` says, and stay valid |
| `FwTheorems.ReachableInv` | fw/main.c:62-82 | over every interleaving of the four tasks: the dispatch task handles no packet while a copy is active, one task at most has a cache operation in hand and its stage fits the caches, and a slot is pending exactly while one task owes its result |
| `FwTheorems.OneOperationAtATime` | fw/cp_cache.c:38-46 | a running cache runs the operation that is pending and is one of its targets |
| `FwTheorems.EveryStartTakesEffect` | fw/cp_cache.c:54-72 | each START store finds its cache idle, so the controller accepts it |
| `FwTheorems.TokenAfterEveryCache` | fw/cp_cache.c:120-147 | a cache command's token is published only when every cache the pending operation targets has finished it; `FwClaims.CachePacketIsDone` says which those are |
| `FwClaims.CachePacketIsDone` | fw/cp_cache.c:105-118 | a cache packet's token is published only when the D-cache of every SM, and for an invalidation its I-cache too, has finished the operation that was claimed for this very packet, in the mode the packet asks for |
| `FwClaims.LaunchAfterInvalidate` | fw/cp_kernel_dispatch.c:135-143 | with several SMs, a launch hands over no work-group before the D-cache of every SM has finished the invalidation that was claimed for this very launch |
| `FwTheorems.EndedByItsOwner` | fw/cp_cache.c:87-101 | only a waiting starter or cp_retire_cache ends an operation, and only when no cache runs it |
| `FwTheorems.CopyNeverBlocks` | fw/cp_memory_copy.c:105-116 | each step of the memory-copy task inside cp_cache_operation_start makes progress |
| `FwTheorems.OnlyPublisherPublishes` | fw/cp_completion.h:29-39 | a slot becomes terminal only from pending, at the publishing step of the one task that owes the result |
| `FwTheorems.TerminalForever` | fw/cp_completion.h:16-39 | over every run, a terminal slot never changes again |
| `FwTheorems.BarrierMeansDrained` | fw/cp_dispatch.c:122-137 | when a barrier publishes success, no other command taken so far is pending |
| `FwTheorems.OneKernelAtATime` | fw/cp_dispatch.c:41-58 | at most one kernel is in use |
| `FwTheorems.EnginesBelongToCopy` | fw/cp_memory_copy.c:137-176 | a DMA engine is started only when both are terminal, an inactive copy has both terminal, and no kernel is active while one works |
| `FwTheorems.CopyRunsAlone` | fw/cp_memory_copy.c:258-282 | past its wait for predecessors, a memory copy runs with no kernel active |
| `FwTheorems.RebootIsDrained` | fw/cp_reboot.c:28-52 | at the jump no kernel, cache operation, copy or DMA is active, and at most an interrupted barrier is without a result |
| `FwMaintenance.PhaseEndsMaintained` | fw/cp_memory_copy.c:284-348 | a memory copy leaves a flush or invalidate phase, other than by a timeout, only when the D-cache of every SM, and in the invalidate phase its I-cache too, has finished the operation that copy started for the phase, in that mode |
| `FwMaintenance.DmaAfterFlushes` | fw/cp_memory_copy.c:268-312 | when an engine is started, exactly the flushes its direction calls for were started, in order, and the last has ended on every D-cache |
| `FwMaintenance.SuccessAfterInvalidate` | fw/cp_memory_copy.c:314-348 | a copy that moved data to the device reports success only after every I-cache and D-cache has finished the invalidation started after the transfer |
| `FwKinds.ReachableKinds` | fw/cp_dispatch.c:98-140 | over every interleaving, each task publishes only for commands of its own kind, and the dispatch task publishes success only for barriers |
| `FwRefusals.RefusedForCause` | fw/cp_dispatch.c:98-142 | the dispatch task fails a command only if its token is valid and its packet is unknown, fails its handler's checks, or is a copy after a fault |
| `FwRefusals.CopyFailsForCause` | fw/cp_memory_copy.c:314-338 | the copy task fails a copy only after a timeout, which it remembers as a fault, or when the engine it used reports an error |
| `FwRefusals.ValidCommandsAreAnswered` | fw/cp_dispatch.c:98-101 | a command that was taken is pending on a task or has its result exactly when its token was valid |
| `FwProgress.WaitingPacketIsTaken` | fw/cp_dispatch.c:41-96 | with no kernel, cache operation or copy active, no fault and no reboot asked for, the dispatch task comes to take a waiting packet by reading alone |
| `FwProgress.BarrierEnds` | fw/cp_dispatch.c:122-137 | with none of those active, a barrier comes to publish its success by reading alone |
| `FwProgress.FinishedOperationRetires` | fw/cp_cache.c:120-148 | an operation that is marked as started and that every cache has finished is retired: its command has success, and the next operation may be claimed |
| `CacheController.Controller.WriteStart` | ilha/src/cache_controller.cc:183-188 | a START store counts exactly when it stores 1 to an idle controller |
| `CacheController.Controller.TryDispatchCommands` | ilha/src/cache_controller.cc:215-228 | all banks are sent their command when all can take one, and none otherwise |
| `CacheController.Controller.TryCollectCommandResponses` | ilha/src/cache_controller.cc:230-247 | all answers are taken when all have arrived, and none otherwise |
| `CacheController.Controller.HandleCommands` | ilha/src/cache_controller.cc:204-294 | START falls only when every bank was sent the command exactly once since it rose and has answered, and falls at the first clock edge at which that is so; the command is formed at the first clock edge and kept |
| `LaunchIds.UpdateIsSuccessor` | fw/cp_kernel_dispatch.c:67-84 | update_id moves to the id of the next rank, and says no exactly after the last |
| `LaunchIds.EveryIdOnce` | fw/cp_kernel_dispatch.c:203-255 | a full visit meets every (x,y,z) of the grid exactly once |
| `LaunchIds.Visit` | fw/cp_kernel_dispatch.c:203-255 | the do/while loop visits the ids of ranks 0, 1, 2, ... up to the number of groups |
| `Launch.SuccessMeansAllOkay` | fw/cp_retire.c:26-39 | the folded result is success exactly when every status is okay, and then the registers are zero |
| `Launch.FirstFailureWins` | fw/cp_retire.c:148-153 | the folded result is that of the first failure in retirement order |
| `LaunchTheorems.ReachableInv` | fw/cp_retire.c:78-168 | over every interleaving of a launch: a WGI slot is in use exactly while dispatch, an SM or retirement has it, and only one of them; blocks, counts and the folded result fit |
| `LaunchTheorems.LeftIsConserved` | fw/cp_kernel_dispatch.c:155-159 | wg_left is the number of groups not yet enqueued plus those enqueued and not yet counted |
| `LaunchTheorems.NothingIsIgnored` | fw/cp_retire.c:83-143 | none of the branches that ignore a dequeue is taken, and no release of local memory fails |
| `LaunchTheorems.EnqueueIsFresh` | fw/cp_wgi_buffer.c:70-80 | a slot is handed to an SM only when no SM has it |
| `LaunchTheorems.BlocksMatchSlots` | fw/cp_kernel_dispatch.c:98-125 | the live blocks of an SM and the in-use slots that hold one match one to one |
| `LaunchTheorems.LocalMemoryIsPrivate` | fw/cp_kernel_dispatch.c:98-125 | a work-group on an SM has all the bytes of local memory it asked for, within the SM's window, and shares none with another group on that SM |
| `LaunchTheorems.SlotKeepsItsId` | fw/cp_kernel_dispatch.c:206-220 | along every run, a WGI slot says the same for as long as an SM has it |
| `LaunchTheorems.PublishedWhenAllIsFreed` | fw/cp_retire.c:134-167 | there is one result, published after the last group was counted, with every slot and every block given back, and for every (x,y,z) of the grid exactly one of the slots handed to the SMs said so |
| `LaunchTheorems.LocalMemoryIsWhole` | fw/cp_retire.c:54-68 | after a launch each SM's free array is a single region again |
| `LaunchProgress.LaunchEnds` | fw/cp_kernel_dispatch.c:203-255 | every run of a launch is finite: but for failed attempts at placing a group, it has at most twelve steps for each work-group and two more |
| `LaunchProgress.NeverStuck` | fw/cp_kernel_dispatch.c:212-228 | in every reachable state before the result is published some step can be taken, given one WGI slot and an SM whose window holds the local memory of one group |
| `CopyChecks.InWindowIsContainment` | fw/cp_memory_copy.c:37-44 | the test holds exactly when the range is not empty and every byte lies in the window |
| `CopyChecks.OverlapIsExact` | fw/cp_memory_copy.c:59-67 | for ranges of any size the test holds exactly when they are not empty and share a byte or one ends at or above 2^64 |
| `CopyChecks.AcceptedIsSound` | fw/cp_memory_copy.c:197-231 | an accepted copy has a device side, device ranges inside a payload window, and disjoint ranges when both are on the device |
| `CopyChecks.VerdictIs` | fw/cp_memory_copy.c:197-231 | each verdict exactly by its cause, the first that applies: a pair of domains other than the three, a zero address, a device range outside every window or a size above 2^63-1, a shared byte or a range that reaches 2^64; otherwise the copy is accepted |
| `CopyTheorems.OtherBytesNeverChange` | fw/cp_memory_copy.c:243-365 | at every moment of a copy, successful or not, no byte outside the destination looks different to the device, dirty bytes on shared lines included |
| `CopyTheorems.SuccessMeansCopied` | fw/cp_memory_copy.c:243-365 | on success each destination byte is the source byte as it looked at the start, in memory and to the device, and no cache holds a destination line |
| `CopyTheorems.SuccessIsCoherent` | hal/include/formosa-hal/api.h:258-275 | on success every clean line agrees with memory again |
| `CopySystem.ReachableInv` | fw/cp_memory_copy.c:243-365 | over every run of the firmware's tasks together with caches, engines and memory: the copy's phases and the memory's go together, and the copy goes on only when nothing of the last phase is left |
| `CopySystem.PublishedMeansCopied` | fw/cp_memory_copy.c:314-348 | when the copy task publishes success, every destination byte is the source's as the copy began, in memory and to the device, no cache holds a destination line, and clean lines agree with memory |
| `CopySystem.OthersUntouched` | fw/cp_memory_copy.c:243-365 | at every moment of such a run, whatever became of the copy, no byte outside its destination looks different to the device |
| `Tokens.TokenRoundTrip` | hal/include/formosa-hal/api.h:64-100 | every field of a token is read back from its nonzero 64-bit word, in arithmetic |
| `Tokens.WordsAreTokens` | hal/include/formosa-hal/api.h:64-107 | words are equal exactly for equal tokens, and so are tags of one slot |
| `Tokens.SlotRoundTrip` | hal/include/formosa-hal/api.h:109-125 | a slot word gives back tag and result, and matches a token exactly when written for it |
| `Tokens.GenerationsDiffer` | hal/include/formosa-hal/api.h:127-132 | after n steps the allocation generation is back exactly when 2^32-1 divides n |
| `Tokens.ValidSlotIs` | hal/include/formosa-hal/api.h:102-107 | a word names a slot of the pool exactly when its generation is not zero and its slot index is below 64 |
| `TokenBits.WordIsMade` | hal/include/formosa-hal/api.h:64-78 | the or of the masked and shifted fields is the word of the token they make, for every boot generation |
| `TokenBits.FieldsAreRead` | hal/include/formosa-hal/api.h:80-125 | the masks and shifts read every field, tag and result of every word |
| `TokenBits.SlotIsEncoded` | hal/include/formosa-hal/api.h:109-114 | the or of shifted tag and result is the slot word of the two |
| `TokenBits.MadeIsReadBack` | hal/include/formosa-hal/api.h:64-100 | a token made bit by bit is not zero and reads back, bit by bit, as the fields it was made from |
| `HostTokens.AllocateOk` | hal/src/hal/hal.cc:263-288 | allocation keeps in-use and stale tokens different, takes a free slot and changes no other |
| `HostTokens.AllocateFinds` | hal/src/hal/hal.cc:263-288 | without stale tokens of this boot generation, allocation succeeds exactly when a slot is free |
| `HostTokens.ResetOk` | hal/src/hal/hal.cc:920-927 | a reset makes exactly the tokens in use stale, all still different |
| `HostTokens.HostSlots.AllocateCompletionSlot` | hal/src/hal/hal.cc:263-288 | the loop computes `Allocate`, passing over candidates that are stale |
| `HostTokens.HostSlots.ReleaseStale` | hal/src/hal/hal.cc:726-731 | forgets the stale token, once |
| `HostTokens.HostSlots.ReleaseSlot` | hal/src/hal/hal.cc:765-772 | frees the slot the token holds and no other |
| `HostTokens.HostSlots.Reset` | hal/src/hal/hal.cc:920-927 | all slots free, their tokens appended to the stale list in slot order |
| `HostTheorems.ReachableInv` | hal/src/hal/hal.cc:298-365 | over every sequence of host and firmware steps: tokens are different, the ring holds the untaken commands between its pointers, and each pool slot shows the last thing written to it |
| `HostTheorems.TokensStayDistinct` | hal/src/hal/hal.cc:263-288 | across allocation, release, generation wrap and reset, the word of a token in use is nonzero and differs from that of every other one in use and of every stale one |
| `HostTheorems.StaleTokensStayDistinct` | hal/src/hal/hal.cc:920-927 | so do the words of stale tokens among themselves, whether or not a token is in use |
| `HostTheorems.PollIsTrue` | hal/src/hal/hal.cc:629-680 | a terminal poll other than "rebooted" returns the result the firmware published for exactly that token, the last thing that happened to its slot before the read |
| `HostCalls.PollAnswer` | hal/src/hal/hal.cc:629-680 | along every run: a poll of a stale token ends "rebooted" and of a token that is neither stale nor in use invalid; a poll of a token in use ends "rebooted" only after the firmware was in another boot generation while it was on, or else with what the history of the pool says of the token at its read |
| `HostCalls.PollReadsTheSlot` | hal/src/hal/hal.cc:656-680 | so "rebooted" needs a stale token or a reboot during the poll; and while the boot generation stays, a poll of a token in use returns a result exactly when its publication for that token is the last event of the slot at the read, and pending exactly when that is the token's own pending word |
| `HostCalls.ReleaseAnswer` | hal/src/hal/hal.cc:720-773 | along every run: a release of a stale token is accepted and leaves it not stale; of a token not in use it is invalid; otherwise it is pending or invalid exactly as the pool says in the token's boot generation, accepted after it met another one, and after it read a result accepted exactly when the token still has its slot |
| `HostTheorems.PublishedIntoOwnSlot` | fw/cp_completion.h:29-39 | a publication follows the pending word the host wrote for the same token, with nothing of the slot between |
| `HostTheorems.HeldUntilReleased` | hal/src/hal/hal.cc:720-773 | whatever releases, polls and submissions interleave, a token keeps its slot until the end of a release of that very token, its own failed submission, or a reset |
| `HostTheorems.FreedAfterResult` | hal/src/hal/hal.cc:749-772 | a release goes on to free a slot without a reboot only after it read a result published for its token |
| `HostAccounts.AcceptedOncePerGrant` | hal/src/hal/hal.cc:720-773 | over every run and for every token, accepted releases plus failed submissions plus one while it holds a slot or is stale are its allocations plus the releases that ended in the reboot branch without a slot; so each allocation is accepted or still owed, and not both, exactly when no release of it ends so; acceptances exceed allocations exactly when such endings exceed what is still owed |
| `HostAccounts.OrderlyCallersReleaseOnce` | hal/src/hal/hal.cc:720-773 | callers that let no release of a token overlap another one of it or the end of a reset have every allocation of it accepted at most once |
| `HostTheorems.AcceptedTwiceAfterReboot` | hal/src/hal/hal.cc:740-747 | a run in which two overlapping releases of a token allocated once are both accepted after a reboot |
| `HostTheorems.AcceptedTwiceInTurn` | hal/src/hal/hal.cc:726-747 | a run in which a release spans a reset, is accepted and leaves its token stale, and a release begun after it returned is accepted again |
| `HostTheorems.RingIsFifo` | fw/cp_dispatch.c:79-96 | the firmware takes commands in submission order, each once, even after an ambiguous doorbell |
| `HostTheorems.NeverOverwritten` | hal/src/hal/hal.cc:228-247 | no step changes a ring entry the firmware has yet to copy |
| `HostTheorems.AmbiguityStopsSubmission` | hal/src/hal/hal.cc:298-365 | along every run, once delivery is ambiguous and until a reset succeeds, the ring does not change, no submission begins, and the commands the firmware may take are as they were or discarded by a reboot |
| `HostProgress.ReservesExactlyWhen` | hal/src/hal/hal.cc:228-288 | a command is accepted only when the session is up, the ring holds fewer than its size less one and a slot is free; and then it is, unless stale tokens of the same boot generation are in the way |
| `HostProgress.SubmitsOneCommand` | hal/src/hal/hal.cc:298-365 | an accepted command whose transfers succeed is the last in the ring, under a token that was neither in use nor stale, with its slot pending, and every other token is as it was |
| `HostProgress.PublishesExactlyWhen` | fw/cp_completion.h:16-39 | a store of a result takes effect exactly for a taken command of this boot generation whose slot is still its pending word, and otherwise changes nothing |
| `HostProgress.ResetRestores` | hal/src/hal/hal.cc:920-931 | a reset that finds the firmware restarted leaves an empty ring, all slots free, exactly the former tokens stale, and the session ready for a command |
| `HostProgress.GrantsDiffer` | hal/src/hal/hal.cc:263-288 | along every run, two tokens handed out without a reset between them differ unless the steps between could have used up all 2^32-1 generations |
| `Numerals.ValueOfText` | fw/tinyprintf/tinyprintf.c:83-99 | the digits written for a number have that number as their value |
| `Printer.FindDivisor` | fw/tinyprintf/tinyprintf.c:86-88 | the divisor is the largest power of the base not above the number, so it never overflows |
| `Printer.WriteDigits` | fw/tinyprintf/tinyprintf.c:89-97 | the digit loop writes the shortest text of the number |
| `Printer.PrintUnsigned` | fw/tinyprintf/tinyprintf.c:83-152 | the buffer holds the number's text and a terminator, within its 23 characters |
| `Printer.NegatedIsMagnitude` | fw/tinyprintf/tinyprintf.c:101-107 | the negation of a negative number, passed on as unsigned, is its magnitude, for the lowest number of the type too |
| `Printer.PrintSigned` | fw/tinyprintf/tinyprintf.c:101-162 | sign and buffer together are the text of the signed number, within the 23 characters |
| `Parser.OverflowTest` | fw/nanolibc/c/strtox.c:126-135 | the quotient-and-remainder test is exact: it fires exactly when the next digit exceeds the limit |
| `Parser.ReadDigit` | fw/nanolibc/c/strtox.c:90-121 | the three character bounds accept exactly the digits of the base |
| `Parser.ReadDigits` | fw/nanolibc/c/strtox.c:112-136 | the loop stops at the first other character, with the digits' value or an overflow flag exactly when it exceeds the limit |
| `Parser.FinishIsMeaning` | fw/nanolibc/c/strtox.c:138-150 | the unsigned arithmetic at the end yields the value clamped to a signed type, and for unsigned types the value saturated, or negated modulo 2^width |
| `Parser.StrTo` | fw/nanolibc/c/strtox.c:51-151 | for every text and base: 0 and no end pointer for an invalid base, otherwise the meaning of the longest digit run after spaces, sign and prefix, and where it ends |
| `Parser.ReadsAsWritten` | fw/nanolibc/c/strtox.c:51-151 | for every text of spaces (the six of the C locale), at most one sign, an optional "0x", digits and a rest that begins with none: its value is that of the digits, in the base asked for, or with base 0 in base 16 after "0x", 8 after a zero and 10 otherwise, and the end is before the rest |
| `Parser.NothingIsRead` | fw/nanolibc/c/strtox.c:51-151 | a text with no digit where one must come is zero, and none of it is used |
| `Parser.UnsignedRoundTrip` | fw/tinyprintf/tinyprintf.c:83-152 | printed unsigned numbers of base 8, 10 and 16 are read back, using all of the text |
| `Parser.SignedRoundTrip` | fw/tinyprintf/tinyprintf.c:101-107 | the text `PrintSigned` writes for a signed number is read back, using all of it, the lowest of the type included |
| `EndToEnd.ReachableInv` | fw/cp_retire.c:78-168 | over every run of a launch together with its SMs: each work-group not yet handed back runs in the slot it was enqueued with, no two in one slot; each one handed back waits in dequeue registers, is in the retire task's hand or has been counted, with the completion its SM delivered |
| `EndToEnd.NothingIsLost` | fw/cp_retire.c:83-143 | every work-group an initializer hands back is one whose slot is in flight on that SM, and none is ignored |
| `EndToEnd.EveryGroupCounted` | fw/cp_retire.c:145-167 | when the result is published, every work-group the launch enqueued on any SM has been counted |
| `EndToEnd.SuccessIffNoTrap` | fw/cp_retire.c:125-167 | a launch succeeds exactly when no warp of any work-group it enqueued, on any SM, trapped with a cause other than 11 |
| `EndToEnd.SuccessRanEveryGroup` | fw/cp_kernel_dispatch.c:240-247 | when a launch succeeds, each work-group it enqueued had the launch's kernel and number of threads, and its SM activated warps for all of those threads, each once |
| `EndToEnd.FailureTellsFirstTrap` | fw/cp_retire.c:148-167 | a failed launch reports the first retired trapped group with the registers of its lowest trapping warp at first sight |
| `EndToEnd.SmsAreDrained` | fw/cp_retire.c:155-167 | once a launch has published, no SM holds a work-group of it, so the next launch starts as this one did |
| `EndToEnd.NoThreadsNoResult` | fw/cp_kernel_dispatch.c:181-183 | a launch whose number of threads is zero never publishes a result: each of its work-groups is dropped |
| `EndToEnd.SizesMayWrap` | fw/cp_kernel_dispatch.c:181-183 | work-group sizes that fit their packet fields can have a 32-bit product of zero |
| `CommandPath.ReachableInv` | hal/src/hal/hal.cc:629-680 | over every run of host, firmware and launch, reboots included: both sides agree on what was submitted and taken, and each result in the pool is that of the command it was published for |
| `CommandPath.PollTellsLaunch` | hal/src/hal/hal.cc:629-680 | a poll of a launch's token that ends with a result other than "rebooted" says success exactly when the launch ran and no warp of it, on any SM, trapped with a cause other than 11 |
| `CommandPolls.PollTellsReboot` | hal/src/hal/hal.cc:656-680 | along every run of host, firmware and launches: a poll says "rebooted" only of a token stale when it began or if the firmware restarted during the poll; otherwise a token in use gets the published result exactly when there is one |

## Left out

- SystemC and TLM plumbing, clocks, delta cycles, traces, statistics, Lua bindings and debug output.
- The MMIO register window of the work-group initializer (`ProcessRequest`): it copies fields.
- The group ids and SM numbers in trace callbacks, and the text of the deadlock report.
- Transport, sockets, firmware upload, device description and occupancy checks of the host library.
- The boot ROM, the cache banks and the DMA engines themselves: their contracts are assumptions.
- The stack addresses of a launch and their remapping, and the round robin of `sm_alloc`: a launch may pick any SM with room.
- The scans of `cp_kernel_state_buf_alloc` and `cp_wgi_buf_alloc`: the models take any free entry.
- A second SM's allocator: each SM has its own, and the checks of the SM number add nothing.
- Memory copies with several SMs: their caches are write-through, so there is no dirty line to lose; the memory of `CopySystem` has the caches of one SM.
- Liveness under a real scheduler beyond the wake-ups of ProcessThread and the progress stated above, and wall-clock time.
- printf's format parser, padding and width, and errno of strtol, which the code does not set.
- FwTasks: each command has its own completion slot, and the kinds of failure results are one value.
- CommandPath: whether a packet's token is pending when it is taken is the packet's own field, so that a result is stored at all is not promised.
- FwTheorems: nothing is said about which packets are taken after a fault; a dispatch task already in its wait loop can take one more (`fw/cp_dispatch.c:79-96`).
- HostTheorems.FreedAfterResult: a token value that comes back after 2^32 allocations in one boot generation is the same token here, so a release that waits that long is not told apart.
- HostProtocol.DoReserve: the write of a pending slot word and the allocation before it are one step, under the command lock.
