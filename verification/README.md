# SimpleScalar, verified models

Models of the stateful parts of SimpleScalar 3.0 and of the five-stage pipeline with a write-back cache built on
it, and proofs of what these parts keep over whole runs. `dafny verify dfyconfig.toml` checks the whole project.

Each group comes in three layers: a state with one function for each routine of the program (the `...State`
modules), the invariant and the theorems about those functions (`...Proof`, `...Theorems`), and classes whose
methods update arrays, rings, linked lists and counters in place, loop by loop, and are proved to compute exactly
those functions (`...Core`). Failed assertions and calls to panic and fatal are outcomes of the model, so that a
theorem about all runs says when they can happen.

## The groups

**Out-of-order core** (`Ooo*`, `Resource`). RUU and LSQ rings, tag-stamped RS links on the ready queue, the event
queue and the dependence chains, the create vector with its speculative copy, and all stages in the order of the main
loop. The state carries a history no routine reads: program order, the dispatch log, what has retired, and the
producer each operand waits for. The invariant (`OooInvariant.Inv`) says, among other things, that valid
ready-queue links are exactly the queued stations, valid events exactly the executing ones, that every unready
operand of an in-flight station has exactly one valid link, on the chain of an older incomplete producer, that the
create vector is precise, and that links are conserved. Inside a stage some clauses are suspended for the stations
being worked on; a `Work` value says which.
`OooTiming` and `OooBandwidth` add when things happen and how much happens in a cycle, and `OooRanks` and
`OooProgress` that the oldest instruction always retires, with a bound.

An instruction is what decoding and functional execution tell dispatch: operand names, opcode class, effective
address, and whether fetch went wrong after it. Any stream of instructions may arrive in any cycle. Assumed of them
(`InstOk`): a store has no output register and has a functional-unit class, a no-operation is never mispredicted,
and classes have at least one unit. All latencies are at least one cycle. Tags, sequence numbers and cycles are
unbounded.

**Five-stage pipeline** (`Pipe*`). Latches, control bits, forwarding and the load-use stall, for straight-line
programs of the opcodes decode gives an ALU function without a branch, against an interpreter. The theorem for every
straight-line program uses a second reference, `Delivered`: one-at-a-time execution with the operands the pipeline
really delivers, which differ from the architectural ones in one case, characterised exactly. `Cached*` puts the
pipeline on its cache: fetches, loads and stores of the whole machine go through it, and the clock charges hits and
misses.

**Caches over flat memory** (`Fifo*`, `Cache*`, with the lists in `WayOrder` and `WayLists`). The pipeline's FIFO
write-back cache, and the general set-associative cache with LRU, FIFO and random replacement, hash chains and
the one-block shortcut. Way lists and hash chains are kept with their pointers (as way numbers) in `WayList` and
`HashTable`. `View` is the flat memory that cache and backing store show together.

**Speculative state** (`Spec*`, `Buckets`). Copy-on-write registers and the hash table of wrong-path stores,
against a private copy of the machine.

**Memory** (`Page*`, `Buckets`). The inverted page table with move-to-front, and the page part of checkpoints.

**Branch prediction** (`Btb*`, `ReturnStack`). The BTB with its recency lists, for lookups directly followed by
their updates, and the circular return-address stack.

**Record and replay** (`Eio*`). Recording of system calls with coalesced memory blobs, and their replay.

**Numerals** (`Numerals`, `NumeralCore`), **CRC** (`Crc`), **expressions** (`Eval*`). Printing and parsing of
64-bit integers, the table-driven CRC against polynomial division, and the one-token-peek evaluator against its
grammar.

## Where the code does less than its comments or intent say

The model follows the code. Each of these has a theorem with the exact condition.

- `lsq_refresh` marks hidden stores with address 0, so a load from address 0 may wait although nothing blocks it
  (`OooTheorems.RefreshIsExact`; `OooWitness.LoadFromZeroHeldBack` runs a core into it).
- The pipeline's busy bits lose track of the younger of two adjacent loads to one register
  (`PipeTheorems.OperandsRight`, `MissedLoad`, `TwoLoadsGoWrong`), register 0 can be written (`ZeroNotKept`), and
  the immediate of ANDI is sign-extended (`AndiAgrees`).
- The first access of a cache dereferences a null pointer if it goes to block 0, and so does one right after a miss
  or a flush (`CacheTheorems.AccessIsFlat`, `RunsAreFlat`).
- A branch at address 0 can fail the duplicate-match assertion of `bpred_update` (`BtbProof.RunFails`,
  `ZeroBranchFails`, `DuplicateOnlyAtZero`).
- `bpred_recover` also undoes the push or pop of the recovering branch itself
  (`ReturnStack.RecoverIgnoresBranch`, `ReturnNotUndone`).
- Wrong-path loads that overlap wrong-path stores partially miss them (`SpecTheorems.ReadIsRight`;
  `PartialOverlapMissed` and `LongerLoadMissed` for single stores).
- The accesses of a system call that fault are recorded all the same: replay compares what a faulting read left in
  its buffer with memory, and performs a faulting write (`EioProof.ReplayIs`, `HarmlessIs`, `TraceReplays`;
  `FaultyReadRefused`, `MisalignedReadRefused` and `FaultyWriteReplayed` for single accesses).
- `myatosq` takes the smallest number for an overflow, and returns it all the same (`Numerals.SignedRoundTrip`).

## Model

| member | source | states |
|---|---|---|
| OooTheorems.NoPanicIsReachable | simplesim-3.0/sim-outorder.c:4531-4605 | from power-up, for any decodable instruction streams, latencies of at least a cycle and pool sizes, no number of cycles reaches any panic or library assertion of the core, apart from an exhausted link pool and, with more than 64 LSQ entries, a full array of unknown stores; every state reached satisfies the invariant |
| OooTheorems.RunStage | simplesim-3.0/sim-outorder.c:4531-4605 | the same from any state that satisfies the invariant |
| OooTheorems.InitInv | simplesim-3.0/sim-outorder.c:1539-1549 | the empty core satisfies the invariant |
| OooCycle.CycleStage | simplesim-3.0/sim-outorder.c:4531-4600 | one iteration of the main loop keeps the invariant or stops for lack of links or array space |
| OooCycle.SanityHolds | simplesim-3.0/sim-outorder.c:4533-4539 | the three sanity panics at the top of the loop cannot fire: RUU and LSQ counters, heads and tails agree |
| OooTheorems.RenamingIsPrecise | simplesim-3.0/sim-outorder.c:2064-2078 | the create vector, through its copy-on-write bits, names an output slot if and only if that slot is the youngest in-flight writer of the register and has not completed; on the correct path, on a wrong path and right after recovery |
| OooTheorems.WriterIsYoungest | simplesim-3.0/sim-outorder.c:3324-3348 | the slot the renaming invariant calls the writer really is the one with the largest sequence number among all in-flight slots for the register |
| OooTheorems.CommitIsInOrder | simplesim-3.0/sim-outorder.c:2133-2274 | what has retired is a prefix of what was dispatched on the correct path, and the remainder is exactly what is in flight there, in the same order; nothing speculative has retired |
| OooTheorems.RuuAndLsqStayPaired | simplesim-3.0/sim-outorder.c:3914-4010 | the k-th address computation in the RUU directly precedes the k-th LSQ entry in program order, and there are as many of one as of the other |
| OooTheorems.OldestIsReady | simplesim-3.0/sim-outorder.c:2133-2274 | the oldest instruction has all its operands and is queued, executing or complete, so register dependences cannot deadlock the core |
| OooTheorems.LinksAreConserved | simplesim-3.0/sim-outorder.c:1738-1767 | in any run from power-up, whatever is squashed, free links, ready queue, event queue and all dependence chains together make up the initial pool |
| OooTheorems.RefreshIsExact | simplesim-3.0/sim-outorder.c:2530-2596 | after lsq_refresh a waiting load is queued if and only if all older stores know their addresses and the youngest older store to its address, if any, has its data; a load from address 0 is also held back while any hidden entry is remembered |
| OooWitness.LoadFromZeroHeldBack | simplesim-3.0/sim-outorder.c:2563-2571 | a run of three cycles from power-up reaches a scan at which a load from address 0 meets its dependences and the scan leaves it waiting |
| OooTheorems.OldestLoadGoes | simplesim-3.0/sim-outorder.c:2530-2596 | the exception never holds back the oldest memory operation, so it cannot wedge the core |
| OooProgress.NothingWaitsForever | simplesim-3.0/sim-outorder.c:4531-4605 | in any run from power-up with latencies up to L, the instruction that is oldest in flight at some point has retired within (5n+1)(5n+1)(L+2) cycles, n being the stations of RUU and LSQ, whatever is fetched, mispredicted and squashed behind it; unless a fixed-size pool runs out |
| OooProgress.OldestRetires | simplesim-3.0/sim-outorder.c:4531-4605 | the same from any state that satisfies the invariant |
| OooProgress.SomethingMoves | simplesim-3.0/sim-outorder.c:4531-4605 | if all units are free and all events due within r cycles, r + 2 cycles retire an instruction or dispatch, start or complete an operation |
| OooProgress.CycleMoves | simplesim-3.0/sim-outorder.c:4531-4605 | a cycle that retires nothing brings the core closer to retiring, or does nothing but count busy units down and drop squashed events |
| OooProgress.QuietMoves | simplesim-3.0/sim-outorder.c:4531-4605 | and it does bring it closer when no unit is busy and no event is scheduled |
| OooProgress.CommitHeldUp | simplesim-3.0/sim-outorder.c:2138-2273 | then only the oldest instruction or its memory access can hold up commit: a port for a store is free |
| OooProgress.HeldUpQueued | simplesim-3.0/sim-outorder.c:2530-2596 | after lsq_refresh that station is on the ready queue, if it has not started |
| OooProgress.SecondIsReady | simplesim-3.0/sim-outorder.c:2133-2274 | the memory access of the oldest instruction has its operands once its address is computed |
| OooProgress.IssueServes | simplesim-3.0/sim-outorder.c:2611-2845 | with all units idle, ruu_issue starts something whenever that station is queued |
| OooProgress.CycleUpTo | simplesim-3.0/sim-outorder.c:2670-2757 | with latencies up to L no unit is ever busy and no event ever scheduled for longer than L cycles |
| OooRanks.CompleteMoves | simplesim-3.0/sim-outorder.c:2381-2517 | a completion, with its recovery if it resolves a misprediction, makes the distance to retiring smaller |
| OooRanks.RecoverMoves | simplesim-3.0/sim-outorder.c:2284-2365 | recovery loses no work done on the correct path |
| OooRanks.IssueMoves | simplesim-3.0/sim-outorder.c:2611-2845 | ruu_issue makes the distance smaller, or starts nothing and leaves units and events alone |
| OooRanks.JoinsMoves | simplesim-3.0/sim-outorder.c:3914-3997 | claiming stations takes more room than it brings work |
| OooRanks.DispatchMoves | simplesim-3.0/sim-outorder.c:3701-4135 | ruu_dispatch never makes the distance larger, and only adds to the dispatch log |
| OooRanks.CommitQuiet | simplesim-3.0/sim-outorder.c:2133-2274 | ruu_commit retires something or changes nothing |
| OooStages.WritebackStage | simplesim-3.0/sim-outorder.c:2381-2517 | ruu_writeback never panics, keeps the invariant, and leaves no event that is due |
| OooStages.NextEventStage | simplesim-3.0/sim-outorder.c:1890-1925 | eventq_next_event returns an in-flight station that is executing with all operands, or finds nothing live that is due |
| OooStages.DueIsExecuting | simplesim-3.0/sim-outorder.c:2387-2391 | the panic test of ruu_writeback on a station whose event fires cannot succeed |
| OooStages.CompleteStage | simplesim-3.0/sim-outorder.c:2393-2513 | completing a station, recovering from its misprediction and broadcasting both results restores the invariant |
| OooStages.PopEvent | simplesim-3.0/sim-outorder.c:1890-1925 | popping an event with a stale tag loses nothing, popping a live one leaves exactly that station without an event |
| OooCompletion.CompletesKeepsBase | simplesim-3.0/sim-outorder.c:2393-2394 | marking a station complete keeps everything but the outputs it has yet to broadcast |
| OooCompletion.UnshowKeepsMid | simplesim-3.0/sim-outorder.c:2445-2475 | clearing the create vector, correct-path and speculative entry each only if it still names this slot, keeps renaming precise |
| OooCompletion.WakesKeepsMid | simplesim-3.0/sim-outorder.c:2478-2507 | waking one consumer and freeing its link keeps every other operand waiting on exactly one link |
| OooWriteback.WakeStage | simplesim-3.0/sim-outorder.c:2477-2509 | the chain walk wakes every live consumer, skips squashed ones, never meets a dependence satisfied twice, and leaves the chain empty |
| OooWriteback.BroadcastBoth | simplesim-3.0/sim-outorder.c:2435-2513 | after both broadcasts no consumer waits on the completed station |
| OooRecovery.RecoverStage | simplesim-3.0/sim-outorder.c:2284-2365 | ruu_recover with tracer_recover fires no panic and leaves in flight exactly the correct path up to and including the mispredicted branch, in order and untouched, with renaming precise again |
| OooRecovery.SquashAfterStage | simplesim-3.0/sim-outorder.c:2293-2357 | the squash loop terminates at the branch with the correct path as its remainder; the RUU never runs empty and the RUU and LSQ never fall out of step |
| OooRecovery.SquashYoungestEffect | simplesim-3.0/sim-outorder.c:2308-2352 | one iteration squashes exactly the youngest instruction: a lone RUU station, or an address computation with its LSQ entry |
| OooRecovery.SquashesKeepsBase | simplesim-3.0/sim-outorder.c:2315-2344 | squashing frees the output chains and stamps new tags, so that every link to a victim is recognisably stale and no survivor waits on a victim |
| OooRecovery.SquashTest | simplesim-3.0/sim-outorder.c:2297-2306 | while wrong-path stations remain the youngest RUU station is one of them, and afterwards it is the branch |
| OooRefresh.NoteStoreStep | simplesim-3.0/sim-outorder.c:2544-2572 | the array of unknown store addresses always describes the scanned part of the LSQ exactly |
| OooRefresh.HeldBackStep | simplesim-3.0/sim-outorder.c:2544-2572 | how one more LSQ entry changes which addresses are held back |
| OooRefresh.BlockedIsHeldBack | simplesim-3.0/sim-outorder.c:2581-2594 | a load that must wait for a store's data is never let go |
| OooRefresh.RefreshStage | simplesim-3.0/sim-outorder.c:2530-2596 | the scan keeps the invariant and decides every waiting load from the current position on |
| OooIssue.IssueStage | simplesim-3.0/sim-outorder.c:2611-2845 | ruu_issue keeps the invariant; no live ready-queue node names a station that is not queued, ready and unissued |
| OooIssue.IssueLoopStage | simplesim-3.0/sim-outorder.c:2627-2817 | so does each step through the detached list, whatever units are free |
| OooIssue.RequeueStage | simplesim-3.0/sim-outorder.c:2819-2844 | the nodes left over all go back to the ready queue |
| OooIssue.StoreCompletes | simplesim-3.0/sim-outorder.c:2649-2666 | a store completes at issue without a result to broadcast and is never a mispredicted branch |
| OooIssue.ScanFindsYoungest | simplesim-3.0/sim-outorder.c:2698-2719 | the backward scan finds the youngest older store to the address |
| OooIssue.LoadForwardsRightStore | simplesim-3.0/sim-outorder.c:2694-2719 | when a load is issued, every older store knows its address, and the store the scan forwards from is the youngest matching one and has its data: what lsq_refresh established still holds |
| OooIssue.LoadTakes | simplesim-3.0/sim-outorder.c:2694-2752 | an issued load takes a cycle if any older store goes to its address and otherwise as long as the data cache, and never less than the TLB |
| OooIssue.LsqPosOf | simplesim-3.0/sim-outorder.c:2698-2719 | the ring arithmetic of the scan starts at the load's own position |
| OooCommit.CommitStage | simplesim-3.0/sim-outorder.c:2133-2274 | ruu_commit never panics and keeps the invariant |
| OooCommit.CommitOne | simplesim-3.0/sim-outorder.c:2139-2273 | one iteration either waits and changes nothing or retires exactly the oldest instruction |
| OooCommit.RetiresHistory | simplesim-3.0/sim-outorder.c:2242-2266 | retiring moves one sequence number from the front of the in-flight correct path to the end of what has retired |
| OooCommit.RetiresKeepsInv | simplesim-3.0/sim-outorder.c:2213-2266 | retiring the oldest one or two stations keeps pairing, renaming, chains and memory dependences |
| OooCommit.HeadFacts | simplesim-3.0/sim-outorder.c:2268-2272 | a completed head has no consumers left, so the panic over retired output chains cannot fire |
| OooLink.CreateVectorIsYoungest | simplesim-3.0/sim-outorder.c:2064-2078 | while dispatching, the create vector shows the youngest in-flight writer with an outstanding result, whatever mixture of speculative and correct-path entries it is made of |
| OooLink.CreatorIsOlder | simplesim-3.0/sim-outorder.c:3284-3320 | the producer an operand is linked to is an older, incomplete station: no self reference, no cycle |
| OooLink.LinkIdepStage | simplesim-3.0/sim-outorder.c:3284-3320 | ruu_link_idep puts an operand on its producer's chain exactly when it has to wait, and keeps the invariant |
| OooLink.LinksKeepsMid | simplesim-3.0/sim-outorder.c:3312-3319 | the new link is the operand's only one |
| OooInstall.InstallStage | simplesim-3.0/sim-outorder.c:3324-3348 | ruu_install_odep makes the station the youngest writer of its output and changes nothing else |
| OooInstall.WriterInstalled | simplesim-3.0/sim-outorder.c:3324-3348 | the youngest-writer function afterwards, for every register |
| OooAlloc.AppendsKeepsMid | simplesim-3.0/sim-outorder.c:3914-3997 | claiming stations keeps the invariant: tags left by earlier instances keep stale links from being mistaken for the new ones |
| OooAlloc.AppendsKeys | simplesim-3.0/sim-outorder.c:3914-3997 | no link anywhere carries the tag of a newly claimed station |
| OooAlloc.ClaimsHistory | simplesim-3.0/sim-outorder.c:3914-3997 | a correct-path dispatch appends one sequence number to the dispatch log |
| OooDispatch.LinkAllStage | simplesim-3.0/sim-outorder.c:3965-3985 | linking three inputs and then installing two outputs |
| OooDispatch.DispatchMemStage | simplesim-3.0/sim-outorder.c:3934-4010 | a load or store enters RUU and LSQ as a linked pair |
| OooDispatch.DispatchAluStage | simplesim-3.0/sim-outorder.c:4011-4040 | any other operation enters the RUU, queued if it is ready |
| OooCycle.DispatchStage | simplesim-3.0/sim-outorder.c:3701-4135 | ruu_dispatch keeps the invariant over any fetch queue |
| OooCycle.EnterSpecStage | simplesim-3.0/sim-outorder.c:4080-4087 | entering speculation at a mispredicted branch makes it the one recovery will return to |
| OooCycle.DrainedIsPrecise | simplesim-3.0/sim-outorder.c:3761-3771 | a trapping instruction that waits for the machine to drain never finds it drained and yet speculative |
| OooCycle.ReleaseStage | simplesim-3.0/sim-outorder.c:1792-1803 | releasing functional units |
| OooQueueSteps.EnqueueEffect | simplesim-3.0/sim-outorder.c:1988-2028 | readyq_enqueue fails only for a station already queued or for lack of links, and adds exactly one link |
| OooQueueSteps.LiveNodeIsReady | simplesim-3.0/sim-outorder.c:2636-2644 | the panic test of ruu_issue on a live node cannot succeed |
| OooQueueSteps.QueuesKeepsMid | simplesim-3.0/sim-outorder.c:1988-2028 | queueing a ready station keeps the invariant |
| OooQueueSteps.ExecutesKeepsMid | simplesim-3.0/sim-outorder.c:1854-1885 | scheduling the one event of a station that starts executing keeps the invariant |
| OooLists.KeysOfInsert | simplesim-3.0/sim-outorder.c:1868-1884 | the sorted insertion adds its link and loses none |
| OooLists.InsertKeepsSorted | simplesim-3.0/sim-outorder.c:1868-1884 | the queue stays sorted |
| OooInvariant.YoungestStore | simplesim-3.0/sim-outorder.c:2698-2719 | the youngest matching store of a list, by its defining property |
| OooTiming.UnitHeld | simplesim-3.0/sim-outorder.c:1792-1803 | over any run, a unit reserved for k cycles counts down by one a cycle and stays taken until they have passed: no stage grants or resets it in between |
| OooTiming.RunOnTime | simplesim-3.0/sim-outorder.c:1854-1925 | in every reachable state no event lies in the past |
| OooTiming.FiresOnTime | simplesim-3.0/sim-outorder.c:1890-1925 | so an operation completes in exactly the cycle its event was scheduled for |
| OooTiming.WritebackTakes | simplesim-3.0/sim-outorder.c:2381-2517 | writeback only takes events off the front of the queue and leaves units alone, recovery included |
| OooBandwidth.CommitIsGreedy | simplesim-3.0/sim-outorder.c:2138-2273 | commit retires in order, never more than its width, and fewer only if the next instruction does not exist, is not complete, or is a store without a port |
| OooBandwidth.IssueIsGreedy | simplesim-3.0/sim-outorder.c:2619-2844 | issue starts never more operations than its width, and fewer only if every in-flight operation left on the ready queue needs a unit and finds all of its class busy |
| OooBandwidth.TakesUnit | simplesim-3.0/sim-outorder.c:2670-2693 | an operation that starts on a unit takes exactly one of its class that was idle, for its issue latency, and its result is due after its operation latency |
| OooBandwidth.NoWrongPath | simplesim-3.0/sim-outorder.c:3729-3737 | with wrong-path execution off, no reachable state has a speculative station in flight |
| OooCore.Core.constructor | simplesim-3.0/sim-outorder.c:1539-1549 | the core as initialised satisfies the invariant |
| OooCore.Core.Step | simplesim-3.0/sim-outorder.c:4531-4600 | the in-place cycle: from the invariant it ends in the invariant, or in one of the two exhaustion panics |
| OooCore.Core.ReadyqEnqueue | simplesim-3.0/sim-outorder.c:1988-2028 | list insertion with its panic, on the queue in place |
| OooCore.Core.EventqQueueEvent | simplesim-3.0/sim-outorder.c:1854-1885 | the event queue insertion with its two panics |
| OooCore.Core.EventqNextEvent | simplesim-3.0/sim-outorder.c:1890-1925 | pops stale events until a live one or none is due |
| OooCore.Core.RuuRecover | simplesim-3.0/sim-outorder.c:2284-2357 | the squash loop over the rings, with its panics |
| OooCore.Core.TracerRecover | simplesim-3.0/sim-outorder.c:2957-3006 | leaves speculation, or panics outside it |
| OooCore.Core.WakeChain | simplesim-3.0/sim-outorder.c:2477-2509 | walks and frees one output chain |
| OooCore.Core.BroadcastSlot | simplesim-3.0/sim-outorder.c:2438-2513 | clears the create vector entries that still name the slot and wakes its consumers |
| OooCore.Core.RuuWriteback | simplesim-3.0/sim-outorder.c:2381-2517 | completes every operation whose event is due |
| OooCore.Core.ResGetUnit | simplesim-3.0/resource.c:132-154 | grants the first idle unit of a class, none, or fails on a class with no unit |
| OooCore.Core.RuuCommit | simplesim-3.0/sim-outorder.c:2133-2274 | the commit loop, head by head |
| OooCore.Core.RuuReleaseFu | simplesim-3.0/sim-outorder.c:1792-1803 | counts busy units down |
| OooCore.Core.LsqRefresh | simplesim-3.0/sim-outorder.c:2530-2596 | the scan with its array of unknown stores, the hiding loop and the early stop |
| OooCore.Core.ScanLsq | simplesim-3.0/sim-outorder.c:2698-2719 | the backward scan, index by index around the ring |
| OooCore.Core.RuuIssue | simplesim-3.0/sim-outorder.c:2611-2845 | detaches the ready list, issues within bandwidth, requeues the rest |
| OooCore.Core.RuuLinkIdep | simplesim-3.0/sim-outorder.c:3284-3320 | links one operand, or marks it ready |
| OooCore.Core.RuuInstallOdep | simplesim-3.0/sim-outorder.c:3324-3348 | installs one output in the speculative or the correct-path create vector |
| OooCore.Core.DispatchMemory | simplesim-3.0/sim-outorder.c:3934-4010 | the load/store case of dispatch |
| OooCore.Core.DispatchOperation | simplesim-3.0/sim-outorder.c:4011-4040 | the other case |
| OooCore.Core.RuuDispatch | simplesim-3.0/sim-outorder.c:3701-4135 | the dispatch loop with its stall conditions |
| Resource.ResCreatePool | simplesim-3.0/resource.c:62-123 | succeeds exactly when no unit is too numerous, all classes are legal and no row outgrows its array; then each row lists exactly the instances' templates of its class |
| Resource.RowIs | simplesim-3.0/resource.c:103-120 | a row holds a template if and only if some instance offers it, with that instance as its master |
| Resource.GrantsLowestIdle | simplesim-3.0/resource.c:132-154 | res_get over such a map grants a unit exactly when an idle instance serves the class, and then the lowest-numbered one |
| Resource.PoolSuitsCore | simplesim-3.0/resource.c:62-123 | a pool built this way meets what the core's theorems assume of their functional units |
| PipeTheorems.PipelineRefinesInterpreter | Project2/sim-pipe.c:239-265 | for straight-line code without writes to register 0 in which every missed load reads the same word as the one seen in its place, the drained pipeline holds the registers and memory of one-at-a-time execution, from n + 4 cycles plus one for each stall on |
| PipeTheorems.PipelineDelivers | Project2/sim-pipe.c:239-265 | for every straight-line program and after every number of cycles, the registers are those of the instructions retired so far, executed one at a time with the operands the pipeline delivers |
| PipeTheorems.PipelineDrains | Project2/sim-pipe.c:239-265 | how many cycles drain it |
| PipeTheorems.RetiresOnTime | Project2/sim-pipe.c:294-309 | the k-th instruction writes back in exactly cycle k + 4 plus one for each stall up to it: if and only if |
| PipeTheorems.StallIsLoadUse | Project2/sim-pipe.c:356-362 | without adjacent loads to one register an instruction stalls if and only if it uses the load right before it |
| PipeTheorems.NoAdjacentLoadsIsClean | Project2/sim-pipe.c:356-362 | no two adjacent loads to one register is enough for no load to be missed |
| PipeTheorems.CleanDelivers | Project2/sim-pipe.c:267-309 | if no load is missed, delivery is sequential execution |
| PipeTheorems.OperandsRight | Project2/sim-pipe.c:267-291 | every instruction gets right operands if and only if wherever a load is missed the earlier one read the same word |
| PipeTheorems.AgreeingDelivers | Project2/sim-pipe.c:267-309 | then delivery is sequential execution |
| PipeTheorems.InterpretsSequentially | Project2/sim-pipe.c:247-250 | without writes to register 0, resetting it before every instruction changes nothing |
| PipeTheorems.MissedLoad | Project2/sim-pipe.c:530 | the one case in which an operand is wrong, and exactly when it is right after all: both loads read the same word |
| PipeTheorems.TwoLoadsGoWrong | Project2/sim-pipe.c:530 | the three-instruction family that shows it: after any number of cycles that drains the pipeline the result is right if and only if the two words are equal |
| PipeTheorems.ZeroNotKept | Project2/sim-pipe.c:545-560 | on the machine, a write to register 0 is seen by the next instruction, and does no harm only if it writes zero |
| PipeTheorems.AndiAgrees | Project2/sim-pipe.c:448-449 | sign-extending the immediate of ANDI gives the architectural result exactly when its sign bit is clear or the operand has an empty upper half |
| PipeProof.CycleKeeps | Project2/sim-pipe.c:254-261 | each cycle keeps the relation between latches and program, and decode moves on unless held |
| PipeProof.ForwardRight | Project2/sim-pipe.c:267-291 | the six-way forwarding priority finds the operand the reference delivers, on a first decode and on a repeated one |
| PipeProof.BlockedIs | Project2/sim-pipe.c:356-362 | the busy bit holds an instruction in decode exactly when the reference says it stalls |
| PipeProof.BusyAfter | Project2/sim-pipe.c:426 | which loads the busy bits stand for: a load clears the bit of a younger load to the same register |
| PipeProof.AluRight | Project2/sim-pipe.c:433-506 | the ALU input selection and function compute the instruction's result or effective address |
| PipeProof.WriteBackStep | Project2/sim-pipe.c:545-560 | write-back brings the register file up to the next instruction |
| PipeProof.MemStep | Project2/sim-pipe.c:508-543 | the memory stage brings memory and the load value up to the next instruction |
| PipeProof.BackEndStep | Project2/sim-pipe.c:433-560 | the three back-end stages together, bubbles included |
| PipeProof.DecodeForwards | Project2/sim-pipe.c:287-431 | decode and forward leave the decoded instruction with the reference's operands |
| PipeProof.InitInv | Project2/sim-pipe.c:616-661 | the empty pipeline |
| PipeCore.Pipeline.Run | Project2/sim-pipe.c:239-265 | the in-place machine, run long enough from power-up, holds what the interpreter computes, under the same condition |
| PipeCore.Pipeline.Step | Project2/sim-pipe.c:254-261 | one cycle, stages in the order of the loop |
| PipeCore.Pipeline.DoId | Project2/sim-pipe.c:332-431 | decode with the load-use test |
| PipeCore.Pipeline.DoEx | Project2/sim-pipe.c:433-506 | execute |
| PipeCore.Pipeline.DoMem | Project2/sim-pipe.c:508-543 | memory access |
| PipeCore.Pipeline.DoWb | Project2/sim-pipe.c:545-560 | write-back |
| PipeCore.Pipeline.ForwardOperand | Project2/sim-pipe.c:267-285 | the forwarding priority |
| PipeCore.Pipeline.PipelineControl | Project2/sim-pipe.c:294-309 | putting a stalled instruction back into fetch |
| PipeCore.Pipeline.DoIf | Project2/sim-pipe.c:311-330 | fetch |
| CachedTheorems.MachineRefinesInterpreter | Project2/sim-pipe.c:239-265 | the whole machine, fetching, loading and storing through its write-back cache: under the conditions of the pipeline theorem, and if the program accesses aligned words and leaves its text alone, it ends with the registers of the interpreter and, after cache_flush, its memory; the clock is the cycles plus one for each hit and ten for each miss, and hits plus misses are twice the cycles plus the loads and stores |
| CachedTheorems.RunMirrors | Project2/sim-pipe.c:239-265 | after every number of cycles the machine with the cache is in the state of the pipeline on flat memory, which cache and memory together show |
| CachedTheorems.CycleMirrors | Project2/sim-pipe.c:254-261 | so does each cycle keep it |
| CachedTheorems.MemMirrors | Project2/sim-pipe.c:508-543 | the memory stage through the cache reads or writes the word the flat memory stage does |
| CachedTheorems.FetchMirrors | Project2/sim-pipe.c:311-330 | the two words fetched through the cache decode to the instruction of the program, although loads and stores share the cache |
| CachedTheorems.TextStays | Project2/sim-pipe.c:701-729 | a store off the text leaves every instruction in place |
| CachedTheorems.RunCharges | Project2/sim-pipe.c:508-543 | after every number of cycles the clock and the count of accesses are what hits, misses and the instructions past the memory stage account for |
| CachedTheorems.AccessCharges | Project2/sim-pipe.c:701-729 | an access is either one hit and costs one cycle, or one miss and costs ten |
| CachedCore.Simulator.Run | Project2/sim-pipe.c:239-265 | the in-place machine run from power-up and flushed: registers, memory and clock |
| CachedCore.Simulator.Step | Project2/sim-pipe.c:254-261 | one cycle with both memory stages going to the cache |
| CachedCore.Simulator.DoMem | Project2/sim-pipe.c:508-543 | loads and stores through cache_read and cache_write, with their cycles |
| CachedCore.Simulator.DoIf | Project2/sim-pipe.c:311-330 | fetches both words through cache_read, with their cycles |
| CachedCore.Simulator.constructor | Project2/sim-pipe.c:103-139 | the empty pipeline over the empty cache |
| FifoTheorems.RunsAreFlat | Project2/sim-pipe.c:701-751 | any run of aligned reads, writes and flushes reads the words flat memory would give and ends showing that memory |
| FifoTheorems.AccessIsFlat | Project2/sim-pipe.c:701-729 | a read returns what cache and memory show, a write changes exactly its word of it; tags stay unique and clean lines equal memory |
| FifoTheorems.FlushIsFlat | Project2/sim-pipe.c:739-751 | after a flush memory alone holds the contents, no line is dirty and nothing seen has changed |
| FifoTheorems.CountersBalance | Project2/sim-pipe.c:711-794 | hits plus misses are accesses, misses less replacements are resident lines, write-backs never exceed replacements |
| FifoTheorems.FlushedAt | Project2/sim-pipe.c:771-782 | a write-back changes exactly the four words of its line |
| FifoTheorems.VictimView | Project2/sim-pipe.c:784-794 | dropping the first-in line after its write-back changes nothing that is seen |
| FifoTheorems.EvictFrame | Project2/sim-pipe.c:784-794 | the line filled before the victim's write-back is still right after it |
| FifoTheorems.InitInv | Project2/sim-pipe.c:103-139 | the empty cache shows memory |
| FifoCache.HomeIs | Project2/ucache.h:9-11 | tag, index and offset of a word address put together give it back |
| FifoCache.HomeParts | Project2/ucache.h:9-11 | and the other way round |
| FifoCache.HitsIs | Project2/sim-pipe.c:712-719 | the search hits if and only if a line matches, and at most once |
| FifoCore.CacheUnit.CacheAccess | Project2/sim-pipe.c:701-729 | the in-place access is flat-memory access |
| FifoCore.CacheUnit.CacheRead | Project2/sim-pipe.c:731-733 | reads the abstract word and changes no other |
| FifoCore.CacheUnit.CacheWrite | Project2/sim-pipe.c:735-737 | writes the abstract word and changes no other |
| FifoCore.CacheUnit.CacheFlush | Project2/sim-pipe.c:739-751 | afterwards memory equals the abstract contents |
| FifoCore.CacheUnit.AddIntoCacheSet | Project2/sim-pipe.c:784-794 | evicts first in, first out when the set is full |
| CacheTheorems.RunsAreFlat | simplesim-3.0/cache.c:500-862 | any run of legal accesses, flushes and block flushes, under any policy and hash function, ends unless an access meets the null block pointer, if and only if; when it ends it has returned the bytes of flat memory and leaves the cache showing it; no assertion fails |
| CacheTheorems.AvoidingRuns | simplesim-3.0/cache.c:500-862 | so a run that stays away from block 0 always ends |
| CacheTheorems.AccessIsFlat | simplesim-3.0/cache.c:500-720 | a legal access succeeds unless it is to block 0 with no last block, when it dereferences a null pointer: if and only if; otherwise it reads flat memory, changes exactly its bytes, and the hash-chain assertion cannot fire |
| CacheTheorems.FlushIsFlat | simplesim-3.0/cache.c:766-800 | after a flush every block is invalid, nothing seen has changed, and the block store alone equals flat memory |
| CacheTheorems.FlushAddrIsFlat | simplesim-3.0/cache.c:805-862 | after a block flush the block is not resident and nothing seen has changed |
| CacheTheorems.CreateInv | simplesim-3.0/cache.c:261-402 | cache_create establishes the invariant and shows the block store |
| CacheTheorems.FastHitIs | simplesim-3.0/cache.c:532-538 | the one-block shortcut hits the block the full search would |
| CacheTheorems.SearchFinds | simplesim-3.0/cache.c:540-563 | hash chain or way list, the search finds the resident block |
| CacheTheorems.MissIs | simplesim-3.0/cache.c:567-650 | a miss, with its victim written back, its relinking and its fill, is an access of flat memory |
| CacheTheorems.SlowHitIs | simplesim-3.0/cache.c:656-682 | so is a slow hit with its reordering |
| CacheProof.HashSearchIsLinear | simplesim-3.0/cache.c:540-553 | the hash chain holds a matching valid block exactly when the way list does, and both searches give that block |
| CacheProof.OnItsChain | simplesim-3.0/cache.c:144-173 | the victim is on the chain it is unlinked from |
| CacheProof.RelinkKeeps | simplesim-3.0/cache.c:144-186 | unlinking under the old tag and linking under the new one keeps every chain complete and free of duplicates |
| CacheProof.EvictView | simplesim-3.0/cache.c:596-621 | writing back and invalidating a block changes nothing that is seen |
| CacheProof.FillKeeps | simplesim-3.0/cache.c:623-650 | filling an invalid way changes nothing that is seen and makes exactly that block resident |
| CacheProof.PatchView | simplesim-3.0/cache.c:661-669 | overwriting a resident block changes the view of that block alone |
| CacheProof.BlockParts | simplesim-3.0/cache.c:62-71 | tag and set of a rebuilt block address |
| CacheProof.FindInIs | simplesim-3.0/cache.c:540-563 | a list search succeeds if and only if the list names a matching valid block |
| CacheLru.StackInclusion | simplesim-3.0/cache.c:193-257 | for the same events, as long as neither meets the null pointer, what an LRU cache holds in a set is at all times the most recent part of what a more associative one holds |
| CacheLru.SmallerNeverHitsMore | simplesim-3.0/cache.c:500-720 | so from power-up it never hits more; the two caches may differ in associativity, hash function and number of buckets |
| CacheLru.AccessUses | simplesim-3.0/cache.c:532-682 | an access counts a hit exactly when its tag is in the recency stack of its set, and then moves that tag to the top, dropping the last one only from a full stack |
| CacheLru.EvictsOnlyWhenFull | simplesim-3.0/cache.c:572-577 | a valid block is replaced only in a set with no invalid block |
| CacheLru.FlushAddrDrops | simplesim-3.0/cache.c:805-862 | a block flush takes exactly its tag out of the stack |
| CacheLru.UseKeepsPrefix | simplesim-3.0/cache.c:193-257 | using a tag keeps a shorter stack a prefix of a longer one |
| CacheLru.PromoteUses | simplesim-3.0/cache.c:671-676 | moving a way to the head is using its tag |
| CacheLru.MissUses | simplesim-3.0/cache.c:572-577 | so is replacing the last way |
| CacheLru.TagsRemove | simplesim-3.0/cache.c:197-236 | unlinking a way takes its tag out of the stack, and no other |
| WayOrder.MoveKeepsPerm | simplesim-3.0/cache.c:193-257 | a way list stays a permutation of the ways |
| WayLists.WayList.UpdateWayList | simplesim-3.0/cache.c:193-257 | the pointer surgery moves the block to either end, keeps the list doubly linked, and its assertions hold |
| WayLists.WayList.Unlink | simplesim-3.0/cache.c:205-236 | unlinking from head, middle or tail |
| WayLists.CutLinks | simplesim-3.0/cache.c:205-236 | the pointers left after an entry is cut out run along the rest of the list |
| CacheLinks.HashTable.UnlinkHtabEnt | simplesim-3.0/cache.c:144-173 | unlinks the entry, and its assertion fails exactly when the entry is not on that chain |
| CacheLinks.HashTable.LinkHtabEnt | simplesim-3.0/cache.c:177-186 | links at the head of the chain |
| CacheCore.CacheUnit.constructor | simplesim-3.0/cache.c:261-402 | builds well-linked empty lists and the initial cache |
| CacheCore.CacheUnit.CacheAccess | simplesim-3.0/cache.c:500-720 | the in-place access is flat-memory access, or meets the null pointer exactly when stated |
| CacheCore.CacheUnit.CacheProbe | simplesim-3.0/cache.c:726-762 | the probe answers as the access would and changes nothing |
| CacheCore.CacheUnit.ChooseVictim | simplesim-3.0/cache.c:570-586 | the last way, or a random one, with the list reordered as the policy says |
| CacheCore.CacheUnit.MissBlock | simplesim-3.0/cache.c:565-653 | the miss handler on linked lists |
| CacheCore.CacheUnit.CacheFlush | simplesim-3.0/cache.c:766-800 | afterwards the block store holds what the cache showed |
| CacheCore.CacheUnit.CacheFlushAddr | simplesim-3.0/cache.c:805-862 | no block seen changes |
| SpecTheorems.RunStands | simplesim-3.0/sim-outorder.c:3042-3214 | over any run in and out of speculation, every register read and every memory read of the access family is that of a private copy of the machine, and no node of the store table is ever lost |
| SpecTheorems.StepStands | simplesim-3.0/sim-outorder.c:3042-3214 | one operation of such a run |
| SpecTheorems.RecoveryIsExact | simplesim-3.0/sim-outorder.c:2957-3006 | whatever a wrong path does, overlapping accesses included, recovery brings back registers, HI, LO and every byte of memory |
| SpecTheorems.PartialOverlapMissed | simplesim-3.0/sim-outorder.c:3042-3214 | outside the family: a wrong-path load that overlaps a wrong-path store at another address, of whatever sizes, reads memory, and is right exactly when the store left the bytes they share as they were |
| SpecTheorems.LongerLoadMissed | simplesim-3.0/sim-outorder.c:3042-3214 | a load from the address of a wrong-path store gets the bytes stored and then what the entry held before, and is right exactly when those equal the memory beyond the store |
| SpecTheorems.ReadIsRight | simplesim-3.0/sim-outorder.c:3042-3214 | after any wrong path, however its accesses overlap: a load gets, byte by byte, what the stores to its very address left in its entry, or memory if there was none, and is right if and only if each byte equals that of the last store covering it |
| SpecTheorems.EntryIs | simplesim-3.0/sim-outorder.c:3094-3207 | the table after any wrong path: each entry is the overlay of the stores to its very address |
| SpecTheorems.CopyIs | simplesim-3.0/sim-outorder.c:3094-3207 | the memory the program should see: each byte is that of the last accepted store covering it |
| SpecProof.SpecRead | simplesim-3.0/sim-outorder.c:3076-3092 | a speculative read returns the table's data or memory, and move-to-front changes no mapping |
| SpecProof.SpecWrite | simplesim-3.0/sim-outorder.c:3094-3207 | a speculative write changes the mapping of its address alone and takes or allocates at most one node |
| Buckets.SearchedIs | simplesim-3.0/sim-outorder.c:3076-3092 | the bucket search keeps the mapping and brings the node to the front exactly when there is one |
| Buckets.ToFrontKeeps | simplesim-3.0/memory.c:79-107 | move-to-front keeps keys unique and the mapping unchanged |
| Buckets.ChainMapIs | simplesim-3.0/memory.c:79-107 | what a chain maps each key to |
| SpecCore.SpecUnit.SpecMemAccess | simplesim-3.0/sim-outorder.c:3042-3214 | the in-place access, with its panic over sizes |
| SpecCore.SpecUnit.GetRegister | simplesim-3.0/sim-outorder.c:3410-3412 | the copy-on-write read |
| SpecCore.SpecUnit.SetRegister | simplesim-3.0/sim-outorder.c:3413-3417 | the copy-on-write update |
| SpecCore.SpecUnit.TracerRecover | simplesim-3.0/sim-outorder.c:2957-3006 | clears the marks and returns every node to the free list |
| PageTheorems.AccessIs | simplesim-3.0/memory.c:141-219 | mem_access faults exactly on a bad size or misalignment and then does nothing; otherwise it reads or writes exactly its bytes; reads never allocate |
| PageTheorems.CheckpointRestores | simplesim-3.0/eio.c:287-298 | dumping all pages and reloading them into empty memory restores every byte |
| PageTheorems.VisitsEachPageOnce | simplesim-3.0/memory.h:140-142 | MEM_FORALL visits page_count pages, no base twice, each base the true address of an allocated page |
| PageTheorems.ReloadIs | simplesim-3.0/eio.c:430-460 | reloading page images overwrites exactly the bytes they cover |
| PageTheorems.DumpFlat | simplesim-3.0/eio.c:287-298 | the images of a dump show exactly the allocated bytes |
| PageTheorems.LegalInPage | simplesim-3.0/memory.c:141-219 | a legal access does not cross its page |
| PageTheorems.InitInv | simplesim-3.0/memory.c:252-263 | empty memory reads as zero everywhere |
| PageProof.PageIs | simplesim-3.0/memory.h:119-127 | MEM_PAGE finds a page exactly when it is allocated and changes no byte |
| PageProof.ReadByteIs | simplesim-3.0/memory.h:151-154 | a byte read returns the flat byte, zero if unallocated, and allocates nothing |
| PageProof.WriteByteIs | simplesim-3.0/memory.h:162-164 | a byte write changes that byte alone and counts a page exactly when it allocates one |
| PageProof.NewPageIs | simplesim-3.0/memory.c:111-135 | a new page shows zeros and counts once |
| PageProof.TickleIs | simplesim-3.0/memory.h:133-137 | allocation on first write |
| PageProof.PageRange | simplesim-3.0/memory.h:106-116 | an address is in a page's range if and only if it has the page's tag and set |
| PageCore.MemSpace.MemTranslate | simplesim-3.0/memory.c:79-107 | chain search with move-to-front and its counters |
| PageCore.MemSpace.MemAccess | simplesim-3.0/memory.c:141-219 | the in-place access: faults, bytes read, bytes written and all others |
| PageCore.MemSpace.DumpPages | simplesim-3.0/eio.c:287-298 | the dump has page_count images |
| PageCore.MemSpace.ReloadPages | simplesim-3.0/eio.c:430-460 | the reload loop |
| BtbProof.EntryIsLastTaken | simplesim-3.0/bpred.c:843-985 | in any run from power-up up to a failed assertion, branches at address 0 included, the entry found for a branch elsewhere holds the destination of its last taken execution |
| BtbProof.RunKeeps | simplesim-3.0/bpred.c:843-985 | over any run of branches up to a failed assertion no two entries of a set hold the same branch, unused ones apart, every entry is in its set, and the list is a permutation in recency of taken updates |
| BtbProof.StepKeeps | simplesim-3.0/sim-bpred.c:511-548 | a lookup followed by its update keeps this, for any branch |
| BtbProof.CorrectKeepsTarget | simplesim-3.0/bpred.c:966-984 | leaving the target alone after a correct prediction is safe: it already is the destination |
| BtbProof.DuplicateOnlyAtZero | simplesim-3.0/bpred.c:854-861 | two entries match only for a branch at address 0 |
| BtbProof.ZeroBranchFails | simplesim-3.0/bpred.c:854-861 | from power-up, the first taken branch at address 0 fails the duplicate assertion if and only if its set has at least two more entries than distinct branches have been taken there |
| BtbProof.RunFails | simplesim-3.0/bpred.c:854-861 | a whole run from power-up fails the assertion if and only if its first taken branch at address 0 does so: once that has passed, none ever fails |
| BtbProof.CreateInv | simplesim-3.0/bpred.c:67-177 | the initial buffer |
| BtbState.Match | simplesim-3.0/bpred.c:672-690 | the first matching entry or none |
| BtbCore.BtbSet.Scan | simplesim-3.0/bpred.c:852-878 | finds match, most and least recent entry in one pass; its assertions on list ends hold, the one on duplicates fails exactly when two entries match |
| BtbCore.BtbSet.MakeRecent | simplesim-3.0/bpred.c:885-902 | the splice to the head of the list |
| BtbCore.BtbUnit.LookupAndUpdate | simplesim-3.0/sim-bpred.c:511-548 | the in-place lookup and update keep the invariant, for any branch; an assertion fails exactly when two entries match, and never away from address 0 |
| BtbCore.BtbUnit.Update | simplesim-3.0/bpred.c:843-985 | the in-place update of the buffer after a taken branch |
| ReturnStack.ReturnIsRight | simplesim-3.0/bpred.c:639-667 | a return is predicted to its matching call's address whenever at most `size` addresses were outstanding since, that call's included |
| ReturnStack.ReturnPrediction | simplesim-3.0/bpred.c:639-667 | in general it is predicted to the address last pushed at a nesting depth that is a multiple of the size |
| ReturnStack.OneTooDeep | simplesim-3.0/bpred.c:639-667 | one call deeper, the prediction is right exactly when the overwriting call has the same address |
| ReturnStack.RecoveryRestores | simplesim-3.0/bpred.c:724-733 | a wrong path that never returns past its start is undone for every entry it did not wrap around to |
| ReturnStack.RecoverIgnoresBranch | simplesim-3.0/bpred.c:724-733 | recovery also undoes the recovering branch's own push or pop: the stack is where the right path has it if and only if the branch is neither call nor return |
| ReturnStack.ReturnNotUndone | simplesim-3.0/bpred.c:724-733 | so after a recovered return, and any nested calls, the next return is predicted to the same address again: right exactly when the two levels return to the same address |
| ReturnStack.TosIs | simplesim-3.0/bpred.c:639-667 | the top moves with nesting height modulo the size |
| ReturnStack.RasUnit.Lookup | simplesim-3.0/bpred.c:639-667 | the in-place push and pop, and the index handed out for recovery |
| ReturnStack.RasUnit.RecoverTo | simplesim-3.0/bpred.c:724-733 | resets the top alone |
| EioProof.TraceReplays | simplesim-3.0/eio.c:571-811 | for any program that sees memory only through its bytes, replay of a whole recorded trace passes every check and agrees with the recording after every call if and only if no fault of a call shows |
| EioProof.ReplayIsExact | simplesim-3.0/eio.c:571-811 | without faults a single call replays to the very machine that was recorded |
| EioProof.ReplayIs | simplesim-3.0/eio.c:571-811 | for every call that can be recorded, whatever blobs its accesses were merged into: replay passes its checks if and only if each faulting read saw in the buffer what memory holds, it then performs every write, faulting ones too, and ends in the recorded state if and only if those are harmless |
| EioProof.HarmlessIs | simplesim-3.0/eio.c:781-807 | replayed writes leave what the call left if and only if each byte of a faulting write is overwritten later in the call or was there already |
| EioProof.FaultlessReplays | simplesim-3.0/eio.c:571-811 | without faults a whole trace replays to the very machine that was recorded |
| EioProof.ReplayAccepts | simplesim-3.0/eio.c:679-736 | replay passes if and only if instruction count, program counter, input registers and every recorded byte agree |
| EioProof.RefusedIs | simplesim-3.0/eio.c:504-508 | recording is refused exactly for a call that reads memory after writing it |
| EioProof.NoteKeepsCells | simplesim-3.0/eio.c:528-558 | coalescing loses no byte and keeps their order |
| EioProof.MatchAllIs | simplesim-3.0/eio.c:707-736 | the blob-by-blob input check is a check of every recorded byte at its address |
| EioProof.PutAllIs | simplesim-3.0/eio.c:781-807 | the output loop writes the recorded bytes in their order |
| EioProof.PerformFaithful | simplesim-3.0/eio.c:492-565 | at every point of a call the recorded inputs match the memory it started from exactly when its faulting reads saw that memory, the recorded outputs are the bytes of all writes tried, and memory holds those of the writes done |
| EioProof.FaultyWriteReplayed | simplesim-3.0/eio.c:492-565 | a single write that faults is recorded all the same, and replay performs it: right if and only if the bytes were already there |
| EioProof.FaultyReadRefused | simplesim-3.0/eio.c:492-565 | a single read that faults is recorded with what the buffer held, and replay stops unless memory holds that |
| EioProof.MisalignedReadRefused | simplesim-3.0/memory.c:367-389 | such a call: a misaligned word read |
| EioCore.MemRecord.Add | simplesim-3.0/eio.c:528-558 | the in-place coalescing appends exactly the access's bytes |
| EioCore.Recorder.MyMemFn | simplesim-3.0/eio.c:492-565 | the tracing accessor, with its fatal exit |
| EioCore.Recorder.EioWriteTrace | simplesim-3.0/eio.c:571-630 | perform and record one call |
| EioCore.Recorder.CheckInputs | simplesim-3.0/eio.c:707-736 | true exactly when memory holds every recorded byte |
| EioCore.Recorder.EioReadTrace | simplesim-3.0/eio.c:636-811 | check and replay one transaction |
| Numerals.UnsignedRoundTrip | simplesim-3.0/misc.c:591-603 | the decimal printing of any unsigned 64-bit number parses back without error, to the end of the string |
| Numerals.HexRoundTrip | simplesim-3.0/misc.c:615-647 | so does its hexadecimal printing, in either case |
| Numerals.SignedRoundTrip | simplesim-3.0/misc.c:547-589 | the decimal printing of any signed 64-bit number parses back, and sets ERANGE exactly for the minimum |
| Numerals.NumeralValue | simplesim-3.0/misc.c:572-588 | the digits produced read back as the number |
| NumeralCore.DigitSurvives | simplesim-3.0/misc.c:580-584 | the digit computed from two quotients truncated to 32 bits is the right one |
| NumeralCore.LowDigit | simplesim-3.0/misc.c:401-413 | the last decimal digit and the quotient of the unsigned number with that bit pattern |
| NumeralCore.Decimal | simplesim-3.0/misc.c:572-588 | the digit loop puts the numeral in front of the buffer |
| NumeralCore.ConvertSigned | simplesim-3.0/misc.c:547-589 | the signed conversion prints the numeral with its sign, for the minimum too |
| NumeralCore.ConvertUnsigned | simplesim-3.0/misc.c:591-603 | the unsigned conversion, for values with the sign bit too |
| NumeralCore.ConvertHex | simplesim-3.0/misc.c:615-647 | the hexadecimal conversion |
| NumeralCore.OverflowTest | simplesim-3.0/misc.c:948-950 | the cut-off test is true exactly when appending the digit would exceed the maximum |
| NumeralCore.Accumulate | simplesim-3.0/misc.c:932-956 | the digit loop is exact while the value fits, and reports overflow if and only if it does not |
| NumeralCore.Myatoq | simplesim-3.0/misc.c:896-985 | space, prefix, base, digits, saturation and end pointer |
| NumeralCore.Myatosq | simplesim-3.0/misc.c:789-892 | the signed one |
| Crc.CrcIsDivision | simplesim-3.0/misc.c:1173-1189 | for every accumulator and word sequence the table-driven CRC is bit-serial division, bytes low to high and bits high first |
| Crc.CrcIsRemainder | simplesim-3.0/misc.c:1151-1189 | it is the remainder: accumulator and message as polynomials equal quotient times 0x104c11db7 plus the CRC |
| Crc.DividerDivides | simplesim-3.0/misc.c:1151-1169 | the bit-serial divider really is polynomial long division |
| Crc.StepIsDivision | simplesim-3.0/misc.c:1173-1189 | one table look-up does what eight steps of the divider do |
| Crc.ShiftLinear | simplesim-3.0/misc.c:1151-1169 | the shift is linear over exclusive or |
| Crc.LowShifts | simplesim-3.0/misc.c:1151-1169 | the three low bytes pass through eight steps unchanged |
| Crc.CrcUnit.CrcGentab | simplesim-3.0/misc.c:1151-1169 | every table entry is eight steps of its index |
| Crc.CrcUnit.Crc | simplesim-3.0/misc.c:1173-1189 | with its lazily generated table |
| EvalProof.EvaluatorIsGrammar | simplesim-3.0/eval.c:938-1124 | evaluation gives a value and an end if and only if some parse tree of the right-recursive grammar derives the tokens up to that end, no operator follows, and the tree has that value |
| EvalProof.ExprSound | simplesim-3.0/dlite.h:84-90 | a success comes with a parse tree, its value and what it consumed |
| EvalProof.ExprComplete | simplesim-3.0/dlite.h:84-90 | every parse tree with a value is found, and no other |
| EvalProof.TermSound | simplesim-3.0/eval.c:996-1032 | the same for the multiplicative level |
| EvalProof.FactorSound | simplesim-3.0/eval.c:938-991 | and for operands |
| EvalProof.ScanConcat | simplesim-3.0/eval.c:121-207 | scanning a concatenation of tokens |
| EvalProof.NeverInvalid | simplesim-3.0/eval.c:121-223 | on recognised characters no token is the sentinel that marks an empty peek slot |
| EvalCore.Evaluator.GetNextToken | simplesim-3.0/eval.c:121-207 | hands out a peeked token or scans; the text consumed ends at the same place either way |
| EvalCore.Evaluator.PeekNextToken | simplesim-3.0/eval.c:212-223 | shows the next token without consuming text |
| EvalCore.Evaluator.DoFactor | simplesim-3.0/eval.c:938-991 | operands |
| EvalCore.Evaluator.DoTerm | simplesim-3.0/eval.c:996-1032 | the multiplicative level |
| EvalCore.Evaluator.DoExpr | simplesim-3.0/eval.c:1037-1067 | the additive level |
| EvalCore.Evaluator.EvalExpr | simplesim-3.0/eval.c:1096-1124 | terminates with the value of recursive descent, its error, and endp right after the text used |

## Left out

- OooTheorems.NoPanicIsReachable: allows the two panics for exhausted fixed-size pools (links, and the array of unknown stores, with more than 64 LSQ entries), which it does not exclude; it speaks of `bugcompat` off only.
- OooProgress.NothingWaitsForever: the bound is not tight; widths are positive, as the options require.
- OooCore.Core: a link is a value and the free list a counter, so which record a link occupies, and aliasing between lists, are not captured; that no link is lost or doubled is, through conservation. Storage for the create vectors and busy counts is a sequence field.
- OooCore.Core.WakeChain: a link is taken off its chain before its consumer is woken; the program frees the whole chain as it goes and clears its head at the end. Likewise a claimed station's flags and names start at the unlinked values and ring tails move when a station is claimed, where the program sets every flag first and moves tails last.
- OooCore.Core.RuuFetch: only the effect on the fetch queue; instruction cache and predictor timing, fetch delays and redirected fetch decide what arrives, and anything may.
- OooCore.Core.TracerRecover: what it does to registers, memory and the store table is the subject of `SpecCore.SpecUnit.TracerRecover`; the two are not composed.
- OooCore.Core.RuuDispatch: functional execution of the instruction (machine.def, system calls, instruction counts) is part of the instruction; branch-predictor updates, pipe traces, statistics and the debugger are left out.
- OooCore.Core.RuuIssue: cache and TLB latencies of a cycle are given by the environment, with an unknown-address or cacheless load as one of its cases.
- Resource.ResCreatePool: a row that outgrows its array is an outcome; the program writes past the row.
- PipeTheorems.PipelineRefinesInterpreter: the condition on missed loads is sufficient; where it fails `PipelineDelivers` says what the machine computes. Memory beneath the pipeline is flat and the text is separate, so a store into fetched text is out; `CachedTheorems` puts the cache beneath it. Cycles count iterations of the main loop, and the clock of `CachedTheorems` adds the cache's charges.
- PipeState.ShiftLeft: shifts by more than 31, undefined in C, use the low five bits.
- CachedTheorems.MachineRefinesInterpreter: the program accesses aligned words and does not store into its text; decoding is any function of an instruction's two words, and what lies behind the program decodes to no-operations as far as fetch gets.
- Pipeline branches, JUMP, MULTU, MFLO, LUI and system calls, and memory faults.
- FifoTheorems.RunsAreFlat: aligned word accesses only, since the copy for an unaligned one can run past the four data words of its line; the set lists are sequences, so next pointers and freed lines are not captured.
- FifoTheorems.AccessIsFlat: aligned word accesses only, likewise.
- FifoTheorems.CountersBalance: aligned word accesses only, likewise.
- FifoCore.CacheUnit.CacheAccess: aligned word accesses only, likewise.
- FifoCore.CacheUnit.CacheRead: aligned word accesses only, likewise.
- FifoCore.CacheUnit.CacheWrite: aligned word accesses only, likewise.
- CacheTheorems.RunsAreFlat: latency, bus occupancy, user data and the reported replacement address are left out, and the hash function is any function.
- CacheLru.StackInclusion: LRU only; that valid blocks are a prefix of the way list is stated for LRU.
- SpecTheorems.StepStands: accesses to an address always have one size and do not overlap those to another; `ReadIsRight` has the exact condition for all others.
- SpecTheorems.RunStands: the same family of accesses; floating-point registers, the condition flag and the fetch-queue reset are left out.
- PageTheorems.CheckpointRestores: the page part of a checkpoint; registers, break point and header are left out.
- PageCore.MemSpace: failure of host allocation; the halfword and word accessors, which read within one page, and string and block copies.
- EioProof.TraceReplays: text printing and parsing of transactions, real exit calls, output made visible during replay, and fast-forwarding are left out.
- BtbProof.EntryIsLastTaken: not for a query at address 0, which an entry never used also matches; lookups are directly followed by their updates; direction counters, history tables and statistics are left out, and the predicted direction is arbitrary. A direct-mapped buffer is the one-way case of the same loops.
- ReturnStack.RasUnit.Lookup: the variant with `RAS_BUG_COMPATIBLE`.
- NumeralCore.ConvertUnsigned: field widths, precision, padding, octal, pointer, comma-grouped and floating conversions; digits and spaces are those of ASCII.
- EvalProof.EvaluatorIsGrammar: typed values, their promotion and the conversion of constants are an arbitrary algebra; characters outside the token map, token buffer overflow, and symbols with file positions are left out.
- Crc.CrcUnit.Crc: the table is generated on first use as in the program; other users of the table do not exist.
- Loader, symbol tables, system calls, options, statistics, dump routines, the debugger and the simulators that are thin interpreter loops: input and output around what is modelled.
- eventq.c, range.c, bitmap.h: easier relatives of structures treated here.
